/** The bounded table of fixed windows (src/bounded-fixed-window.ts): an insertion-ordered map with
    idle expiry, optional expiry of past windows, and eviction of the least recently recorded key.
    Times are real numbers, as a monotonic clock with fractions delivers them. */
module FixedWindow {

  datatype Option<+T> = None | Some(value: T)

  datatype Bucket = Bucket(count: int, startedAt: real, lastSeenAt: real, windowMs: real)

  datatype Entry<K> = Entry(key: K, bucket: Bucket)

  /** A JavaScript Map as the list of its entries in insertion order. */
  type Table<K> = seq<Entry<K>>

  datatype Limits = Limits(maxBuckets: nat, idleMs: real, expireWindows: bool)

  datatype Counted = Counted(count: int, remainingMs: int, remainingSeconds: int)

  const MAX_SAFE_INTEGER: int := 9007199254740991

  function Ceil(x: real): int { -((-x).Floor) }

  function Min(a: int, b: int): int { if a < b then a else b }

  // ---------- the map ----------

  function Get<K(==)>(t: Table<K>, key: K): Option<Bucket> {
    if t == [] then None
    else if t[0].key == key then Some(t[0].bucket)
    else Get(t[1..], key)
  }

  function Without<K(==)>(t: Table<K>, key: K): Table<K> {
    if t == [] then []
    else if t[0].key == key then Without(t[1..], key)
    else [t[0]] + Without(t[1..], key)
  }

  predicate Idle(b: Bucket, idleMs: real, now: real) { now - b.lastSeenAt > idleMs }

  predicate Past(b: Bucket, now: real) { now - b.startedAt >= b.windowMs }

  /** What a visit of every entry keeps when past windows expire as well. */
  function Alive<K>(t: Table<K>, idleMs: real, expireWindows: bool, now: real): Table<K> {
    if t == [] then []
    else
      var rest := Alive(t[1..], idleMs, expireWindows, now);
      if Idle(t[0].bucket, idleMs, now) || (expireWindows && Past(t[0].bucket, now)) then rest else [t[0]] + rest
  }

  /** What the sweep that stops at the first entry in use keeps. */
  function FromFirstInUse<K>(t: Table<K>, idleMs: real, now: real): Table<K> {
    if t == [] || !Idle(t[0].bucket, idleMs, now) then t else FromFirstInUse(t[1..], idleMs, now)
  }

  function Swept<K>(t: Table<K>, limits: Limits, now: real): Table<K> {
    if limits.expireWindows then Alive(t, limits.idleMs, true, now) else FromFirstInUse(t, limits.idleMs, now)
  }

  function Trimmed<K>(t: Table<K>, maxBuckets: nat): Table<K> {
    if |t| <= maxBuckets then t else t[|t| - maxBuckets..]
  }

  // ---------- one recording ----------

  function NextBucket(previous: Option<Bucket>, windowMs: real, ceiling: int, now: real): Bucket {
    if previous.None? || now - previous.value.startedAt >= windowMs then Bucket(1, now, now, windowMs)
    else previous.value.(count := Min(previous.value.count + 1, ceiling), lastSeenAt := now)
  }

  /** The table between the sweep and the eviction. */
  function Refreshed<K(==)>(t: Table<K>, limits: Limits, key: K, windowMs: real, ceiling: int, now: real): Table<K> {
    Swept(Without(t, key) + [Entry(key, NextBucket(Get(t, key), windowMs, ceiling, now))], limits, now)
  }

  function Recorded<K(==)>(t: Table<K>, limits: Limits, key: K, windowMs: real, ceiling: int, now: real): Table<K> {
    Trimmed(Refreshed(t, limits, key, windowMs, ceiling, now), limits.maxBuckets)
  }

  function Report(b: Bucket, windowMs: real, now: real): Counted {
    Counted(b.count, Ceil(windowMs - (now - b.startedAt)), Ceil((windowMs - (now - b.startedAt)) / 1000.0))
  }

  /** The bucket's window is not over, and has reached the limit. */
  predicate Exhausted(bucket: Option<Bucket>, limit: int, windowMs: real, now: real) {
    bucket.Some? && bucket.value.count >= limit && windowMs - (now - bucket.value.startedAt) > 0.0
  }

  function RetryFor(bucket: Option<Bucket>, limit: int, windowMs: real, now: real): int {
    var remaining := if bucket.Some? then windowMs - (now - bucket.value.startedAt) else 0.0;
    if bucket.Some? && bucket.value.count >= limit && remaining > 0.0 then Ceil(remaining / 1000.0) else 0
  }

  // ---------- the table of the source ----------

  class BoundedFixedWindow<K(==)> {
    const limits: Limits
    var buckets: Table<K>
    var evictions: int

    ghost predicate Valid()
      reads this
    {
      limits.maxBuckets >= 1 && limits.idleMs >= 0.0 && 0 <= evictions <= MAX_SAFE_INTEGER
    }

    constructor (limits: Limits)
      requires limits.maxBuckets >= 1 && limits.idleMs >= 0.0
      ensures this.limits == limits && buckets == [] && evictions == 0 && Valid()
    {
      this.limits := limits;
      buckets, evictions := [], 0;
    }

    /** record. */
    method Record(key: K, windowMs: real, ceiling: int, now: real) returns (result: Counted)
      requires Valid()
      modifies this
      ensures Valid() && buckets == Recorded(old(buckets), limits, key, windowMs, ceiling, now)
      ensures result == Report(NextBucket(Get(old(buckets), key), windowMs, ceiling, now), windowMs, now)
      ensures var refreshed := Refreshed(old(buckets), limits, key, windowMs, ceiling, now);
              evictions == Min(MAX_SAFE_INTEGER, old(evictions) + if |refreshed| > limits.maxBuckets then |refreshed| - limits.maxBuckets else 0)
    {
      var bucket := NextBucket(Get(buckets, key), windowMs, ceiling, now);
      buckets := Without(buckets, key);
      buckets := buckets + [Entry(key, bucket)];
      Sweep(now);
      Evict();
      result := Report(bucket, windowMs, now);
    }

    /** The visit of the entries in insertion order; without window expiry it stops early. */
    method Sweep(now: real)
      modifies this`buckets
      ensures buckets == Swept(old(buckets), limits, now)
    {
      var i := 0;
      while i < |buckets|
        invariant i <= |buckets| && (!limits.expireWindows ==> i == 0)
        invariant buckets[..i] + Swept(buckets[i..], limits, now) == Swept(old(buckets), limits, now)
        decreases |buckets| - i
      {
        var state := buckets[i].bucket;
        if Idle(state, limits.idleMs, now) || (limits.expireWindows && Past(state, now)) {
          assert buckets[i..][1..] == (buckets[..i] + buckets[i + 1..])[i..];
          assert (buckets[..i] + buckets[i + 1..])[..i] == buckets[..i];
          buckets := buckets[..i] + buckets[i + 1..];
        } else if !limits.expireWindows {
          assert buckets[..0] + buckets[0..] == buckets;
          break;
        } else {
          assert buckets[i..][1..] == buckets[i + 1..];
          assert buckets[..i] + [buckets[i]] == buckets[..i + 1];
          i := i + 1;
        }
      }
      if i == |buckets| {
        assert buckets[..i] == buckets && buckets[i..] == [];
      }
    }

    /** The eviction of the least recently recorded keys. */
    method Evict()
      requires Valid()
      modifies this
      ensures Valid() && buckets == Trimmed(old(buckets), limits.maxBuckets)
      ensures evictions == Min(MAX_SAFE_INTEGER, old(evictions) + if |old(buckets)| > limits.maxBuckets then |old(buckets)| - limits.maxBuckets else 0)
    {
      var evicted := 0;
      while |buckets| > limits.maxBuckets
        invariant Valid() && 0 <= evicted <= |old(buckets)| && buckets == old(buckets)[evicted..]
        invariant evicted > 0 ==> |buckets| >= limits.maxBuckets
        invariant evictions == Min(MAX_SAFE_INTEGER, old(evictions) + evicted)
      {
        buckets := buckets[1..];
        evictions := Min(MAX_SAFE_INTEGER, evictions + 1);
        evicted := evicted + 1;
      }
    }

    /** retryAfter: whole seconds until the key may be used again. */
    function RetryAfter(key: K, limit: int, windowMs: real, now: real): (seconds: int)
      reads this
      ensures seconds > 0 <==> Exhausted(Get(buckets, key), limit, windowMs, now)
      ensures seconds > 0 ==> !Exhausted(Get(buckets, key), limit, windowMs, now + seconds as real * 1000.0)
                              && Exhausted(Get(buckets, key), limit, windowMs, now + (seconds - 1) as real * 1000.0)
      ensures seconds >= 0
    {
      RetryFor(Get(buckets, key), limit, windowMs, now)
    }

    /** delete. */
    method Delete(key: K) returns (existed: bool)
      modifies this`buckets
      ensures buckets == Without(old(buckets), key)
      ensures existed <==> Get(old(buckets), key).Some?
    {
      existed := Get(buckets, key).Some?;
      buckets := Without(buckets, key);
    }

    /** retain: the keys a predicate does not keep are deleted. */
    method Retain(keep: K -> bool)
      modifies this`buckets
      ensures buckets == Kept(old(buckets), keep)
    {
      var i := 0;
      while i < |buckets|
        invariant i <= |buckets|
        invariant buckets[..i] + Kept(buckets[i..], keep) == Kept(old(buckets), keep)
        decreases |buckets| - i
      {
        if keep(buckets[i].key) {
          assert buckets[i..][1..] == buckets[i + 1..];
          assert buckets[..i] + [buckets[i]] == buckets[..i + 1];
          i := i + 1;
        } else {
          assert buckets[i..][1..] == (buckets[..i] + buckets[i + 1..])[i..];
          assert (buckets[..i] + buckets[i + 1..])[..i] == buckets[..i];
          buckets := buckets[..i] + buckets[i + 1..];
        }
      }
      assert buckets[..i] == buckets && buckets[i..] == [];
    }
  }

  function Kept<K>(t: Table<K>, keep: K -> bool): Table<K> {
    if t == [] then []
    else if keep(t[0].key) then [t[0]] + Kept(t[1..], keep)
    else Kept(t[1..], keep)
  }

  // ---------- the order of the table ----------

  ghost predicate Distinct<K>(t: Table<K>) {
    forall i, j :: 0 <= i < j < |t| ==> t[i].key != t[j].key
  }

  ghost predicate SeenInOrder<K>(t: Table<K>, now: real) {
    && (forall i, j :: 0 <= i <= j < |t| ==> t[i].bucket.lastSeenAt <= t[j].bucket.lastSeenAt)
    && (forall i :: 0 <= i < |t| ==> t[i].bucket.startedAt <= t[i].bucket.lastSeenAt <= now)
  }

  /** A table that only recordings and deletions have shaped. */
  ghost predicate Ordered<K>(t: Table<K>, limits: Limits, now: real) {
    Distinct(t) && SeenInOrder(t, now) && |t| <= limits.maxBuckets
  }

  /** Deleting entries keeps their order. */
  ghost predicate SubTable<K>(small: Table<K>, large: Table<K>)
    decreases |large|
  {
    || small == []
    || (large != [] && ((small[0] == large[0] && SubTable(small[1..], large[1..])) || SubTable(small, large[1..])))
  }

  lemma {:induction false} SubTableEntries<K>(small: Table<K>, large: Table<K>, i: nat, j: nat) returns (a: nat, b: nat)
    requires SubTable(small, large) && i <= j < |small|
    ensures a <= b < |large| && large[a] == small[i] && large[b] == small[j] && (i < j ==> a < b)
    ensures |small| <= |large|
    decreases |large|
  {
    if small[0] == large[0] && SubTable(small[1..], large[1..]) {
      if i == 0 {
        a := 0;
        if j == 0 { b := 0; SubTableShorter(small, large); } else { var _, b' := SubTableEntries(small[1..], large[1..], j - 1, j - 1); b := b' + 1; }
      } else {
        a, b := SubTableEntries(small[1..], large[1..], i - 1, j - 1);
        a, b := a + 1, b + 1;
      }
    } else {
      a, b := SubTableEntries(small, large[1..], i, j);
      a, b := a + 1, b + 1;
    }
  }

  lemma {:induction false} SubTableShorter<K>(small: Table<K>, large: Table<K>)
    requires SubTable(small, large)
    ensures |small| <= |large|
    decreases |large|
  {
    if small != [] {
      if small[0] == large[0] && SubTable(small[1..], large[1..]) { SubTableShorter(small[1..], large[1..]); } else { SubTableShorter(small, large[1..]); }
    }
  }

  lemma SubTableKeeps<K>(small: Table<K>, large: Table<K>, now: real)
    requires SubTable(small, large) && Distinct(large) && SeenInOrder(large, now)
    ensures Distinct(small) && SeenInOrder(small, now) && |small| <= |large|
  {
    SubTableShorter(small, large);
    forall i: nat, j: nat | i <= j < |small|
      ensures i < j ==> small[i].key != small[j].key
      ensures small[i].bucket.lastSeenAt <= small[j].bucket.lastSeenAt
      ensures small[i].bucket.startedAt <= small[i].bucket.lastSeenAt <= now
    {
      var a, b := SubTableEntries(small, large, i, j);
    }
  }

  lemma {:induction false} WithoutIsSub<K>(t: Table<K>, key: K)
    ensures SubTable(Without(t, key), t)
    ensures forall k :: Get(Without(t, key), k) == if k == key then None else Get(t, k)
  {
    if t != [] { WithoutIsSub(t[1..], key); }
  }

  lemma {:induction false} AliveIsSub<K>(t: Table<K>, idleMs: real, expireWindows: bool, now: real)
    requires Distinct(t)
    ensures SubTable(Alive(t, idleMs, expireWindows, now), t)
    ensures forall k :: Get(Alive(t, idleMs, expireWindows, now), k) ==
              if Get(t, k).Some? && !Idle(Get(t, k).value, idleMs, now) && !(expireWindows && Past(Get(t, k).value, now)) then Get(t, k) else None
  {
    if t != [] {
      AliveIsSub(t[1..], idleMs, expireWindows, now);
      AbsentFromRest(t);
    }
  }

  lemma {:induction false} AbsentFromRest<K>(t: Table<K>)
    requires Distinct(t) && t != []
    ensures Get(t[1..], t[0].key).None?
  {
    GetNone(t[1..], t[0].key);
  }

  lemma {:induction false} GetNone<K>(t: Table<K>, key: K)
    requires forall i :: 0 <= i < |t| ==> t[i].key != key
    ensures Get(t, key).None?
  {
    if t != [] { GetNone(t[1..], key); }
  }

  /** The entries at the front of the table are the ones seen longest ago, so the sweep that stops
      at the first entry in use removes exactly what a sweep of the whole table would remove. */
  lemma {:induction false} EarlyExitSweepsEverything<K>(t: Table<K>, idleMs: real, now: real)
    requires SeenInOrder(t, now)
    ensures FromFirstInUse(t, idleMs, now) == Alive(t, idleMs, false, now)
  {
    if t != [] {
      EarlyExitSweepsEverything(t[1..], idleMs, now);
      if !Idle(t[0].bucket, idleMs, now) { NothingIdle(t, idleMs, now); }
    }
  }

  lemma {:induction false} NothingIdle<K>(t: Table<K>, idleMs: real, now: real)
    requires forall i :: 0 <= i < |t| ==> !Idle(t[i].bucket, idleMs, now)
    ensures Alive(t, idleMs, false, now) == t
  {
    if t != [] { NothingIdle(t[1..], idleMs, now); }
  }

  lemma {:induction false} SuffixIsSub<K>(t: Table<K>, i: nat)
    requires i <= |t| && Distinct(t)
    ensures SubTable(t[i..], t)
    ensures forall k :: Get(t[i..], k).Some? ==> Get(t[i..], k) == Get(t, k)
    decreases i
  {
    if i > 0 {
      SuffixIsSub(t[1..], i - 1);
      assert t[i..] == t[1..][i - 1..];
      AbsentFromRest(t);
    } else {
      assert t[0..] == t;
      Reflexive(t);
    }
  }

  lemma {:induction false} Reflexive<K>(t: Table<K>)
    ensures SubTable(t, t)
  {
    if t != [] { Reflexive(t[1..]); }
  }

  lemma {:induction false} KeptIsSub<K>(t: Table<K>, keep: K -> bool)
    requires Distinct(t)
    ensures SubTable(Kept(t, keep), t)
    ensures forall k :: Get(Kept(t, keep), k) == if keep(k) then Get(t, k) else None
  {
    if t != [] {
      KeptIsSub(t[1..], keep);
      AbsentFromRest(t);
    }
  }

  lemma {:induction false} GetAppended<K>(t: Table<K>, e: Entry<K>)
    ensures forall k :: Get(t + [e], k) == if Get(t, k).Some? then Get(t, k) else if k == e.key then Some(e.bucket) else None
  {
    if t != [] {
      assert (t + [e])[1..] == t[1..] + [e];
      GetAppended(t[1..], e);
    }
  }

  lemma {:induction false} GetIsEntry<K>(t: Table<K>, key: K) returns (i: nat)
    requires Get(t, key).Some?
    ensures i < |t| && t[i] == Entry(key, Get(t, key).value)
  {
    if t[0].key == key {
      i := 0;
    } else {
      i := GetIsEntry(t[1..], key);
      i := i + 1;
    }
  }

  /** The table once the recorded key is last, before the sweep. */
  function Appended<K(==)>(t: Table<K>, key: K, windowMs: real, ceiling: int, now: real): Table<K> {
    Without(t, key) + [Entry(key, NextBucket(Get(t, key), windowMs, ceiling, now))]
  }

  lemma AppendedOrdered<K>(t: Table<K>, key: K, windowMs: real, ceiling: int, last: real, now: real)
    requires Distinct(t) && SeenInOrder(t, last) && last <= now
    ensures Distinct(Appended(t, key, windowMs, ceiling, now)) && SeenInOrder(Appended(t, key, windowMs, ceiling, now), now)
    ensures forall k :: Get(Appended(t, key, windowMs, ceiling, now), k) ==
              if k == key then Some(NextBucket(Get(t, key), windowMs, ceiling, now)) else Get(t, k)
  {
    var rest, bucket := Without(t, key), NextBucket(Get(t, key), windowMs, ceiling, now);
    WithoutIsSub(t, key);
    SubTableKeeps(rest, t, last);
    GetAppended(rest, Entry(key, bucket));
    forall i | 0 <= i < |rest| ensures rest[i].key != key {
      if rest[i].key == key { FoundAt(rest, i); }
    }
    if Get(t, key).Some? { var i := GetIsEntry(t, key); }
  }

  lemma {:induction false} FoundAt<K>(t: Table<K>, i: nat)
    requires i < |t|
    ensures Get(t, t[i].key).Some?
  {
    if t[0].key != t[i].key { FoundAt(t[1..], i - 1); }
  }

  /** A key stays through the sweep, whichever of the two sweeps it is, exactly when it was recorded
      within the idle time and, where windows expire, its own window is not over. */
  lemma SweptGet<K>(t: Table<K>, limits: Limits, now: real)
    requires Distinct(t) && SeenInOrder(t, now)
    ensures SubTable(Swept(t, limits, now), t)
    ensures forall k :: Get(Swept(t, limits, now), k) ==
              match Get(t, k)
              case Some(b) =>
                if now <= b.lastSeenAt + limits.idleMs && (limits.expireWindows ==> now < b.startedAt + b.windowMs) then Some(b) else None
              case None => None
  {
    AliveIsSub(t, limits.idleMs, limits.expireWindows, now);
    if !limits.expireWindows { EarlyExitSweepsEverything(t, limits.idleMs, now); }
  }

  /** Recording keeps the table ordered and within its bound. */
  lemma RecordedOrdered<K>(t: Table<K>, limits: Limits, key: K, windowMs: real, ceiling: int, last: real, now: real)
    requires Ordered(t, limits, last) && last <= now
    ensures Ordered(Recorded(t, limits, key, windowMs, ceiling, now), limits, now)
  {
    var appended := Appended(t, key, windowMs, ceiling, now);
    AppendedOrdered(t, key, windowMs, ceiling, last, now);
    SweptGet(appended, limits, now);
    var swept := Swept(appended, limits, now);
    SubTableKeeps(swept, appended, now);
    if |swept| > limits.maxBuckets {
      SuffixIsSub(swept, |swept| - limits.maxBuckets);
      SubTableKeeps(swept[|swept| - limits.maxBuckets..], swept, now);
    }
  }

  /** An entry is evicted exactly when the bound's worth of entries stands behind it, that is, when
      as many keys as there is room for were recorded after it. */
  lemma EvictedExactly<K>(t: Table<K>, limits: Limits, key: K, windowMs: real, ceiling: int, last: real, now: real, i: nat)
    requires Ordered(t, limits, last) && last <= now
    requires i < |Refreshed(t, limits, key, windowMs, ceiling, now)|
    ensures var refreshed := Refreshed(t, limits, key, windowMs, ceiling, now);
            Get(Recorded(t, limits, key, windowMs, ceiling, now), refreshed[i].key) ==
              if |refreshed| - i <= limits.maxBuckets then Some(refreshed[i].bucket) else None
  {
    var appended, refreshed := Appended(t, key, windowMs, ceiling, now), Refreshed(t, limits, key, windowMs, ceiling, now);
    AppendedOrdered(t, key, windowMs, ceiling, last, now);
    SweptGet(appended, limits, now);
    SubTableKeeps(refreshed, appended, now);
    SuffixGet(refreshed, if |refreshed| <= limits.maxBuckets then 0 else |refreshed| - limits.maxBuckets, i);
    assert refreshed[0..] == refreshed;
  }

  lemma {:induction false} SuffixGet<K>(t: Table<K>, start: nat, i: nat)
    requires Distinct(t) && start <= |t| && i < |t|
    ensures Get(t[start..], t[i].key) == if start <= i then Some(t[i].bucket) else None
    decreases |t|
  {
    if start > 0 {
      assert t[start..] == t[1..][start - 1..];
      if i > 0 {
        SuffixGet(t[1..], start - 1, i - 1);
      } else {
        GetNone(t[start..], t[0].key);
      }
    } else {
      assert t[0..] == t;
      GetAt(t, i);
    }
  }

  lemma {:induction false} GetAt<K>(t: Table<K>, i: nat)
    requires Distinct(t) && i < |t|
    ensures Get(t, t[i].key) == Some(t[i].bucket)
  {
    if i > 0 { GetAt(t[1..], i - 1); }
  }

  ghost predicate KeysAmong<K>(t: Table<K>, keys: set<K>) { forall i :: 0 <= i < |t| ==> t[i].key in keys }

  lemma {:induction false} NoMoreThanKeys<K>(t: Table<K>, keys: set<K>)
    requires Distinct(t) && KeysAmong(t, keys)
    ensures |t| <= |keys|
  {
    if t != [] { NoMoreThanKeys(t[1..], keys - {t[0].key}); }
  }

  /** While no more keys are in use than there is room for, a recording evicts nothing. */
  lemma EnoughRoom<K>(t: Table<K>, limits: Limits, key: K, windowMs: real, ceiling: int, last: real, now: real, keys: set<K>)
    requires Ordered(t, limits, last) && last <= now && KeysAmong(t, keys) && key in keys && |keys| <= limits.maxBuckets
    ensures Recorded(t, limits, key, windowMs, ceiling, now) == Refreshed(t, limits, key, windowMs, ceiling, now)
    ensures KeysAmong(Recorded(t, limits, key, windowMs, ceiling, now), keys)
  {
    hide Idle, Past, NextBucket;
    var appended, refreshed := Appended(t, key, windowMs, ceiling, now), Refreshed(t, limits, key, windowMs, ceiling, now);
    AppendedOrdered(t, key, windowMs, ceiling, last, now);
    SweptGet(appended, limits, now);
    SubTableKeeps(refreshed, appended, now);
    WithoutIsSub(t, key);
    forall i: nat | i < |refreshed| ensures refreshed[i].key in keys {
      var a, _ := SubTableEntries(refreshed, appended, i, i);
      if a < |Without(t, key)| { var b, _ := SubTableEntries(Without(t, key), t, a, a); }
    }
    NoMoreThanKeys(refreshed, keys);
  }

  // ---------- what a recording reports ----------

  /** The reported times are the least whole milliseconds and seconds until the window is over. */
  lemma ReportIsExact(b: Bucket, windowMs: real, now: real)
    ensures var r := Report(b, windowMs, now);
            && r.count == b.count
            && b.startedAt + windowMs <= now + r.remainingMs as real && now + (r.remainingMs - 1) as real < b.startedAt + windowMs
            && b.startedAt + windowMs <= now + r.remainingSeconds as real * 1000.0
            && now + (r.remainingSeconds - 1) as real * 1000.0 < b.startedAt + windowMs
  {
    var left := b.startedAt + windowMs - now;
    assert Ceil(left) as real >= left > Ceil(left) as real - 1.0;
    assert Ceil(left / 1000.0) as real >= left / 1000.0 > Ceil(left / 1000.0) as real - 1.0;
  }

  // ---------- the ideal table ----------

  /** A window of an unbounded table that counts without saturation. */
  datatype Mark = Mark(startedAt: real, count: int)

  function NextMark(m: Option<Mark>, windowMs: real, at: real): Mark {
    if m.None? || at - m.value.startedAt >= windowMs then Mark(at, 1) else Mark(m.value.startedAt, m.value.count + 1)
  }

  /** The bounded table agrees with the ideal one about a key, or has forgotten a window that is over. */
  ghost predicate Tracks<K>(t: Table<K>, key: K, ideal: Option<Mark>, windowMs: real, ceiling: int, now: real) {
    match Get(t, key)
    case Some(b) => ideal.Some? && b.startedAt == ideal.value.startedAt && b.count == Min(ideal.value.count, ceiling) && b.windowMs == windowMs
    case None => ideal.None? || now - ideal.value.startedAt >= windowMs
  }

  /** The eviction of this recording spares the key. */
  ghost predicate Spared<K>(t: Table<K>, limits: Limits, key: K, windowMs: real, ceiling: int, now: real, spared: K) {
    Get(Refreshed(t, limits, key, windowMs, ceiling, now), spared).Some? ==> Get(Recorded(t, limits, key, windowMs, ceiling, now), spared).Some?
  }

  lemma RecordedGet<K>(t: Table<K>, limits: Limits, key: K, windowMs: real, ceiling: int, last: real, now: real, k: K)
    requires Ordered(t, limits, last) && last <= now && Spared(t, limits, key, windowMs, ceiling, now, k)
    ensures var b := if k == key then Some(NextBucket(Get(t, key), windowMs, ceiling, now)) else Get(t, k);
            Get(Recorded(t, limits, key, windowMs, ceiling, now), k) ==
              if b.Some? && !Idle(b.value, limits.idleMs, now) && !(limits.expireWindows && Past(b.value, now)) then b else None
  {
    var appended := Appended(t, key, windowMs, ceiling, now);
    AppendedOrdered(t, key, windowMs, ceiling, last, now);
    SweptGet(appended, limits, now);
    var swept := Swept(appended, limits, now);
    SubTableKeeps(swept, appended, now);
    if |swept| > limits.maxBuckets { SuffixIsSub(swept, |swept| - limits.maxBuckets); }
  }

  /** A recording of the key itself reports the saturated ideal count, and of the ideal window. */
  lemma TracksItself<K>(t: Table<K>, limits: Limits, key: K, windowMs: real, ceiling: int, ideal: Option<Mark>, last: real, now: real)
    requires Ordered(t, limits, last) && last <= now && windowMs <= limits.idleMs && ceiling >= 1
    requires Tracks(t, key, ideal, windowMs, ceiling, last) && Spared(t, limits, key, windowMs, ceiling, now, key)
    ensures Tracks(Recorded(t, limits, key, windowMs, ceiling, now), key, Some(NextMark(ideal, windowMs, now)), windowMs, ceiling, now)
    ensures var b, m := NextBucket(Get(t, key), windowMs, ceiling, now), NextMark(ideal, windowMs, now);
            b.startedAt == m.startedAt && b.count == Min(m.count, ceiling)
  {
    RecordedGet(t, limits, key, windowMs, ceiling, last, now, key);
    if Get(t, key).Some? { var i := GetIsEntry(t, key); }
  }

  /** A recording of another key changes nothing about this one but forgetting its past window. */
  lemma TracksBesides<K>(t: Table<K>, limits: Limits, key: K, windowMs: real, ceiling: int, ideal: Option<Mark>,
                         other: K, otherWindow: real, otherCeiling: int, last: real, now: real)
    requires Ordered(t, limits, last) && last <= now && windowMs <= limits.idleMs && other != key
    requires Tracks(t, key, ideal, windowMs, ceiling, last) && Spared(t, limits, other, otherWindow, otherCeiling, now, key)
    ensures Tracks(Recorded(t, limits, other, otherWindow, otherCeiling, now), key, ideal, windowMs, ceiling, now)
  {
    RecordedGet(t, limits, other, otherWindow, otherCeiling, last, now, key);
    if Get(t, key).Some? { var i := GetIsEntry(t, key); }
  }

  lemma TracksLater<K>(t: Table<K>, key: K, ideal: Option<Mark>, windowMs: real, ceiling: int, now: real, later: real)
    requires Tracks(t, key, ideal, windowMs, ceiling, now) && now <= later
    ensures Tracks(t, key, ideal, windowMs, ceiling, later)
  {
  }

  // ---------- how many uses a window, and an interval, admit ----------

  datatype Use<K> = Use(key: K, at: real)

  /** The ideal window of a key after a history of uses, by the uses of that key alone. */
  function MarkAfter<K(==)>(uses: seq<Use<K>>, key: K, windowMs: real): Option<Mark> {
    if uses == [] then None
    else
      var before, last := MarkAfter(uses[..|uses| - 1], key, windowMs), uses[|uses| - 1];
      if last.key == key then Some(NextMark(before, windowMs, last.at)) else before
  }

  ghost predicate InOrder<K>(uses: seq<Use<K>>) {
    forall i, j :: 0 <= i <= j < |uses| ==> uses[i].at <= uses[j].at
  }

  /** The mark that use number i sets. */
  function MarkAt<K(==)>(uses: seq<Use<K>>, windowMs: real, i: nat): Mark
    requires i < |uses|
  {
    NextMark(MarkAfter(uses[..i], uses[i].key, windowMs), windowMs, uses[i].at)
  }

  /** Use number i is within the limit of its window. */
  predicate Admitted<K(==)>(uses: seq<Use<K>>, windowMs: real, limit: int, i: nat)
    requires i < |uses|
  {
    MarkAt(uses, windowMs, i).count <= limit
  }

  lemma MarkAfterNext<K>(uses: seq<Use<K>>, windowMs: real, n: nat, key: K)
    requires n < |uses|
    ensures MarkAfter(uses[..n + 1], key, windowMs) ==
            if uses[n].key == key then Some(MarkAt(uses, windowMs, n)) else MarkAfter(uses[..n], key, windowMs)
  {
    assert uses[..n + 1][..n] == uses[..n];
  }

  /** A window starts no later than its uses and contains them. */
  lemma {:induction false} MarkContains<K>(uses: seq<Use<K>>, windowMs: real, n: nat, key: K)
    requires InOrder(uses) && n <= |uses|
    ensures var m := MarkAfter(uses[..n], key, windowMs); m.Some? ==> m.value.count >= 1
    ensures var m := MarkAfter(uses[..n], key, windowMs); m.Some? ==> forall j :: n <= j < |uses| ==> m.value.startedAt <= uses[j].at
  {
    if n > 0 {
      MarkContains(uses, windowMs, n - 1, key);
      MarkAfterNext(uses, windowMs, n - 1, key);
    }
  }

  /** From use i on, the window of its key is the same one with a count no smaller, or begins after
      the window of use i is over. */
  lemma {:induction false} MarkMovesOn<K>(uses: seq<Use<K>>, windowMs: real, i: nat, n: nat)
    requires InOrder(uses) && i < n <= |uses| && windowMs > 0.0
    ensures var m, mi := MarkAfter(uses[..n], uses[i].key, windowMs), MarkAt(uses, windowMs, i);
            && m.Some?
            && ((m.value.startedAt == mi.startedAt && m.value.count >= mi.count) || m.value.startedAt >= mi.startedAt + windowMs)
  {
    MarkAfterNext(uses, windowMs, n - 1, uses[i].key);
    if i < n - 1 { MarkMovesOn(uses, windowMs, i, n - 1); }
  }

  /** Two uses of a key share a window, with a larger count for the later one, or the later one's
      window begins after the earlier use and a full window after the earlier window began. */
  lemma MarksApart<K>(uses: seq<Use<K>>, windowMs: real, i: nat, j: nat)
    requires InOrder(uses) && i < j < |uses| && windowMs > 0.0 && uses[i].key == uses[j].key
    ensures var mi, mj := MarkAt(uses, windowMs, i), MarkAt(uses, windowMs, j);
            || (mi.startedAt == mj.startedAt && mi.count < mj.count)
            || (mj.startedAt >= mi.startedAt + windowMs && mj.startedAt > uses[i].at)
    ensures MarkAt(uses, windowMs, j).startedAt <= uses[j].at
  {
    MarkMovesOn(uses, windowMs, i, j);
    MarkContains(uses, windowMs, i, uses[i].key);
    MarkContains(uses, windowMs, j, uses[j].key);
  }

  /** In one window the counts are distinct, so at most limit uses are admitted. */
  lemma {:induction false} WindowAdmits<K>(uses: seq<Use<K>>, windowMs: real, limit: nat, key: K, startedAt: real, s: set<nat>)
    requires InOrder(uses) && windowMs > 0.0
    requires forall i :: i in s ==> i < |uses| && uses[i].key == key && MarkAt(uses, windowMs, i).startedAt == startedAt && Admitted(uses, windowMs, limit, i)
    ensures |s| <= limit
  {
    if s != {} { var last := LastUse(uses, windowMs, key, startedAt, s); }
  }

  lemma {:induction false} LastUse<K>(uses: seq<Use<K>>, windowMs: real, key: K, startedAt: real, s: set<nat>) returns (last: nat)
    requires InOrder(uses) && windowMs > 0.0 && s != {}
    requires forall i :: i in s ==> i < |uses| && uses[i].key == key && MarkAt(uses, windowMs, i).startedAt == startedAt
    ensures last in s && (forall i :: i in s ==> i <= last)
    ensures |s| <= MarkAt(uses, windowMs, last).count
    decreases |s|
  {
    last := Largest(s);
    MarkContains(uses, windowMs, last, key);
    var rest := s - {last};
    assert s == rest + {last} && |s| == |rest| + 1;
    if rest != {} {
      var previous := LastUse(uses, windowMs, key, startedAt, rest);
      MarksApart(uses, windowMs, previous, last);
    }
  }

  lemma {:induction false} Largest(s: set<nat>) returns (last: nat)
    requires s != {}
    ensures last in s && forall i :: i in s ==> i <= last
    decreases |s|
  {
    last :| last in s;
    if s != {last} {
      var rest := Largest(s - {last});
      assert forall i :: i in s ==> i == last || i in s - {last};
      if last < rest { last := rest; }
    }
  }

  lemma {:induction false} Smallest(s: set<nat>) returns (first: nat)
    requires s != {}
    ensures first in s && forall i :: i in s ==> first <= i
    decreases |s|
  {
    first :| first in s;
    if s != {first} {
      var rest := Smallest(s - {first});
      assert forall i :: i in s ==> i == first || i in s - {first};
      if rest < first { first := rest; }
    }
  }

  /** Any interval as long as a window, both ends included, admits at most twice the limit. */
  lemma IntervalAdmits<K>(uses: seq<Use<K>>, windowMs: real, limit: nat, key: K, from: real, s: set<nat>)
    requires InOrder(uses) && windowMs > 0.0
    requires forall i :: i in s ==> i < |uses| && uses[i].key == key && from <= uses[i].at <= from + windowMs && Admitted(uses, windowMs, limit, i)
    ensures |s| <= 2 * limit
  {
    if s == {} { return; }
    var first := Smallest(s);
    var start := MarkAt(uses, windowMs, first).startedAt;
    var early := set i | i in s && MarkAt(uses, windowMs, i).startedAt == start;
    var late := s - early;
    WindowAdmits(uses, windowMs, limit, key, start, early);
    if late != {} {
      var next := Smallest(late);
      MarksApart(uses, windowMs, first, next);
      forall i | i in late ensures MarkAt(uses, windowMs, i).startedAt == MarkAt(uses, windowMs, next).startedAt {
        if i != next { MarksApart(uses, windowMs, next, i); }
      }
      WindowAdmits(uses, windowMs, limit, key, MarkAt(uses, windowMs, next).startedAt, late);
    }
    assert s == early + late;
  }
}
