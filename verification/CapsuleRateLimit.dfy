/** The rate limiter of a Capsule (src/capsule-rate-limit.ts) on the bounded table of fixed windows.
    Quotas are keyed by the caller's key together with the limit and the window, so every table
    key has one window length and one ceiling. */
module CapsuleRateLimit {
  import opened FixedWindow

  datatype RateLimitOptions = RateLimitOptions(limit: int, windowMs: int)

  datatype RateLimitResult = Decided(ok: bool, retryAfterMs: int) | InvalidRateLimit

  /** The JSON text of the caller's key with its parameters. */
  datatype QuotaKey = QuotaKey(key: string, options: RateLimitOptions)

  const LONGEST_WINDOW: int := 86_400_000
  const MAX_KEY_BYTES: nat := 1024

  predicate ValidOptions(options: RateLimitOptions) {
    0 < options.limit < MAX_SAFE_INTEGER && 0 < options.windowMs <= LONGEST_WINDOW
  }

  function Utf8Length(text: string): nat {
    if text == [] then 0
    else
      var c := text[0] as int;
      (if c < 0x80 then 1 else if c < 0x800 then 2 else if c < 0x1_0000 then 3 else 4) + Utf8Length(text[1..])
  }

  predicate ValidKey(key: string) {
    key != "" && Utf8Length(key) <= MAX_KEY_BYTES
  }

  function LimitsFor(maxBuckets: nat): Limits {
    Limits(maxBuckets, LONGEST_WINDOW as real, true)
  }

  function Window(key: QuotaKey): real { key.options.windowMs as real }

  function Consumed(t: Table<QuotaKey>, limits: Limits, key: QuotaKey, now: real): Table<QuotaKey> {
    Recorded(t, limits, key, Window(key), key.options.limit + 1, now)
  }

  function BucketFor(t: Table<QuotaKey>, key: QuotaKey, now: real): Bucket {
    NextBucket(Get(t, key), Window(key), key.options.limit + 1, now)
  }

  function Decision(t: Table<QuotaKey>, key: QuotaKey, now: real): RateLimitResult {
    var bucket := BucketFor(t, key, now);
    var ok := bucket.count <= key.options.limit;
    Decided(ok, if ok then 0 else Ceil(Window(key) - (now - bucket.startedAt)))
  }

  /** The bytes are the UTF-8 form of the character, by the table in section 3 of RFC 3629. */
  predicate Encodes(bytes: seq<int>, c: char) {
    && (forall i :: 0 < i < |bytes| ==> 0x80 <= bytes[i] <= 0xBF)
    && match |bytes|
       case 1 => 0 <= bytes[0] <= 0x7F && c as int == bytes[0]
       case 2 => 0xC2 <= bytes[0] <= 0xDF && c as int == (bytes[0] - 0xC0) * 0x40 + bytes[1] - 0x80
       case 3 => 0xE0 <= bytes[0] <= 0xEF && (bytes[0] == 0xE0 ==> bytes[1] >= 0xA0)
                 && c as int == ((bytes[0] - 0xE0) * 0x40 + bytes[1] - 0x80) * 0x40 + bytes[2] - 0x80
       case 4 => 0xF0 <= bytes[0] <= 0xF4 && (bytes[0] == 0xF0 ==> bytes[1] >= 0x90)
                 && c as int == (((bytes[0] - 0xF0) * 0x40 + bytes[1] - 0x80) * 0x40 + bytes[2] - 0x80) * 0x40 + bytes[3] - 0x80
       case _ => false
  }

  function Flat(parts: seq<seq<int>>): seq<int> { if parts == [] then [] else parts[0] + Flat(parts[1..]) }

  /** The bytes are the UTF-8 form of the text. */
  ghost predicate EncodesText(bytes: seq<int>, text: string) {
    exists parts: seq<seq<int>> :: |parts| == |text| && bytes == Flat(parts) && forall i :: 0 <= i < |text| ==> Encodes(parts[i], text[i])
  }

  lemma CharEncoded(c: char) returns (bytes: seq<int>)
    ensures Encodes(bytes, c)
  {
    var n := c as int;
    var q := n / 0x40;
    assert n == q * 0x40 + n % 0x40;
    if n < 0x80 {
      bytes := [n];
    } else if n < 0x800 {
      bytes := [0xC0 + q, 0x80 + n % 0x40];
    } else {
      var p := q / 0x40;
      assert q == p * 0x40 + q % 0x40;
      if n < 0x1_0000 {
        bytes := [0xE0 + p, 0x80 + q % 0x40, 0x80 + n % 0x40];
      } else {
        var o := p / 0x40;
        assert p == o * 0x40 + p % 0x40;
        bytes := [0xF0 + o, 0x80 + p % 0x40, 0x80 + q % 0x40, 0x80 + n % 0x40];
      }
    }
  }

  /** The length is that of the UTF-8 form, which every text has. */
  lemma {:induction false} Utf8LengthIsEncoded(text: string)
    ensures exists bytes :: EncodesText(bytes, text)
    ensures forall bytes :: EncodesText(bytes, text) ==> |bytes| == Utf8Length(text)
  {
    var all: seq<seq<int>> := [];
    for i := 0 to |text|
      invariant |all| == i && forall k :: 0 <= k < i ==> Encodes(all[k], text[k])
    {
      var bytes := CharEncoded(text[i]);
      all := all + [bytes];
    }
    assert EncodesText(Flat(all), text);
    forall bytes | EncodesText(bytes, text) ensures |bytes| == Utf8Length(text) {
      var parts: seq<seq<int>> :| |parts| == |text| && bytes == Flat(parts) && forall i :: 0 <= i < |text| ==> Encodes(parts[i], text[i]);
      FlatLength(parts, text);
    }
  }

  lemma {:induction false} FlatLength(parts: seq<seq<int>>, text: string)
    requires |parts| == |text| && forall i :: 0 <= i < |text| ==> Encodes(parts[i], text[i])
    ensures |Flat(parts)| == Utf8Length(text)
  {
    if text != [] { FlatLength(parts[1..], text[1..]); }
  }

  class CapsuleRateLimiter {
    const windows: BoundedFixedWindow<QuotaKey>

    constructor (maxBuckets: nat)
      requires maxBuckets >= 1
      ensures windows.buckets == [] && windows.limits == LimitsFor(maxBuckets) && windows.Valid() && fresh(windows)
    {
      windows := new BoundedFixedWindow(LimitsFor(maxBuckets));
    }

    /** consume; an invalid key or invalid options are refused and not counted. */
    method Consume(key: string, parameters: RateLimitOptions, now: real) returns (result: RateLimitResult)
      requires windows.Valid()
      modifies windows
      ensures windows.Valid()
      ensures if |key| > 0 && Utf8Length(key) <= 1024 && 1 <= parameters.limit <= MAX_SAFE_INTEGER - 1 && 1 <= parameters.windowMs <= 86_400_000
              then windows.buckets == Consumed(old(windows.buckets), windows.limits, QuotaKey(key, parameters), now)
                   && result == Decision(old(windows.buckets), QuotaKey(key, parameters), now)
              else windows.buckets == old(windows.buckets) && result == InvalidRateLimit
    {
      if !ValidKey(key) || !ValidOptions(parameters) {
        return InvalidRateLimit;
      }
      var bucket := windows.Record(QuotaKey(key, parameters), parameters.windowMs as real, parameters.limit + 1, now);
      var ok := bucket.count <= parameters.limit;
      result := Decided(ok, if ok then 0 else bucket.remainingMs);
    }
  }

  // ---------- runs of the limiter ----------

  ghost predicate ValidUses(uses: seq<Use<QuotaKey>>) {
    InOrder(uses) && forall i :: 0 <= i < |uses| ==> ValidOptions(uses[i].key.options)
  }

  function TableAfter(uses: seq<Use<QuotaKey>>, limits: Limits): Table<QuotaKey> {
    if uses == [] then []
    else
      var last := uses[|uses| - 1];
      Consumed(TableAfter(uses[..|uses| - 1], limits), limits, last.key, last.at)
  }

  function ClockAfter(uses: seq<Use<QuotaKey>>): real
    requires uses != []
  {
    uses[|uses| - 1].at
  }

  /** No eviction for lack of room ever hits this key. */
  ghost predicate NeverEvicted(uses: seq<Use<QuotaKey>>, limits: Limits, key: QuotaKey) {
    forall i :: 0 <= i < |uses| ==>
      Spared(TableAfter(uses[..i], limits), limits, uses[i].key, Window(uses[i].key), uses[i].key.options.limit + 1, uses[i].at, key)
  }

  lemma {:induction false} TableOrdered(uses: seq<Use<QuotaKey>>, limits: Limits, now: real)
    requires InOrder(uses) && (uses != [] ==> ClockAfter(uses) <= now)
    ensures Ordered(TableAfter(uses, limits), limits, now)
  {
    if uses != [] {
      var init, last := uses[..|uses| - 1], uses[|uses| - 1];
      TableOrdered(init, limits, last.at);
      RecordedOrdered(TableAfter(init, limits), limits, last.key, Window(last.key), last.key.options.limit + 1, last.at, last.at);
    }
  }

  lemma PrefixNeverEvicted(uses: seq<Use<QuotaKey>>, limits: Limits, key: QuotaKey, n: nat)
    requires ValidUses(uses) && NeverEvicted(uses, limits, key) && n <= |uses|
    ensures ValidUses(uses[..n]) && NeverEvicted(uses[..n], limits, key)
  {
    hide Spared, TableAfter;
    assert forall i :: 0 <= i < n ==> uses[..n][..i] == uses[..i];
  }

  /** The bounded table refines the ideal one about every key that is never evicted. */
  lemma {:induction false} TableTracks(uses: seq<Use<QuotaKey>>, maxBuckets: nat, key: QuotaKey, now: real)
    requires ValidUses(uses) && ValidOptions(key.options) && NeverEvicted(uses, LimitsFor(maxBuckets), key)
    requires uses != [] ==> ClockAfter(uses) <= now
    ensures Tracks(TableAfter(uses, LimitsFor(maxBuckets)), key, MarkAfter(uses, key, Window(key)), Window(key), key.options.limit + 1, now)
  {
    if uses != [] {
      var limits := LimitsFor(maxBuckets);
      var init, last := uses[..|uses| - 1], uses[|uses| - 1];
      PrefixNeverEvicted(uses, limits, key, |uses| - 1);
      TableTracks(init, maxBuckets, key, last.at);
      TableOrdered(init, limits, last.at);
      assert Spared(TableAfter(init, limits), limits, last.key, Window(last.key), last.key.options.limit + 1, last.at, key);
      OneMoreUse(TableAfter(init, limits), limits, key, MarkAfter(init, key, Window(key)), last);
      TracksLater(TableAfter(uses, limits), key, MarkAfter(uses, key, Window(key)), Window(key), key.options.limit + 1, last.at, now);
    }
  }

  lemma OneMoreUse(t: Table<QuotaKey>, limits: Limits, key: QuotaKey, ideal: Option<Mark>, last: Use<QuotaKey>)
    requires Ordered(t, limits, last.at) && ValidOptions(key.options) && limits.idleMs == LONGEST_WINDOW as real
    requires Tracks(t, key, ideal, Window(key), key.options.limit + 1, last.at)
    requires Spared(t, limits, last.key, Window(last.key), last.key.options.limit + 1, last.at, key)
    ensures Tracks(Consumed(t, limits, last.key, last.at), key,
                   if last.key == key then Some(NextMark(ideal, Window(key), last.at)) else ideal, Window(key), key.options.limit + 1, last.at)
  {
    hide Tracks, Spared, Recorded, Ordered, NextMark;
    if last.key == key {
      TracksItself(t, limits, key, Window(key), key.options.limit + 1, ideal, last.at, last.at);
    } else {
      TracksBesides(t, limits, key, Window(key), key.options.limit + 1, ideal, last.key, Window(last.key), last.key.options.limit + 1, last.at, last.at);
    }
  }

  /** No key is ever evicted while at most as many keys are in use as there is room for. */
  lemma FewKeysAreSpared(uses: seq<Use<QuotaKey>>, maxBuckets: nat, keys: set<QuotaKey>, key: QuotaKey)
    requires InOrder(uses) && |keys| <= maxBuckets && forall i :: 0 <= i < |uses| ==> uses[i].key in keys
    ensures NeverEvicted(uses, LimitsFor(maxBuckets), key)
  {
    var limits := LimitsFor(maxBuckets);
    forall i | 0 <= i < |uses|
      ensures Spared(TableAfter(uses[..i], limits), limits, uses[i].key, Window(uses[i].key), uses[i].key.options.limit + 1, uses[i].at, key)
    {
      TableOrdered(uses[..i], limits, uses[i].at);
      OnlyTheseKeys(uses[..i], maxBuckets, keys);
      EnoughRoom(TableAfter(uses[..i], limits), limits, uses[i].key, Window(uses[i].key), uses[i].key.options.limit + 1, uses[i].at, uses[i].at, keys);
    }
  }

  lemma {:induction false} OnlyTheseKeys(uses: seq<Use<QuotaKey>>, maxBuckets: nat, keys: set<QuotaKey>)
    requires InOrder(uses) && |keys| <= maxBuckets && forall i :: 0 <= i < |uses| ==> uses[i].key in keys
    ensures KeysAmong(TableAfter(uses, LimitsFor(maxBuckets)), keys)
  {
    if uses != [] {
      var limits := LimitsFor(maxBuckets);
      var init, last := uses[..|uses| - 1], uses[|uses| - 1];
      OnlyTheseKeys(init, maxBuckets, keys);
      TableOrdered(init, limits, last.at);
      EnoughRoom(TableAfter(init, limits), limits, last.key, Window(last.key), last.key.options.limit + 1, last.at, last.at, keys);
    }
  }

  /** Each decision is the one of an unbounded table that counts every use of the key. */
  lemma DecisionIsIdeal(uses: seq<Use<QuotaKey>>, maxBuckets: nat, i: nat)
    requires ValidUses(uses) && i < |uses| && NeverEvicted(uses, LimitsFor(maxBuckets), uses[i].key)
    ensures var key := uses[i].key;
            var mark := MarkAt(uses, Window(key), i);
            Decision(TableAfter(uses[..i], LimitsFor(maxBuckets)), key, uses[i].at) ==
              if mark.count <= key.options.limit then Decided(true, 0)
              else Decided(false, Ceil(Window(key) - (uses[i].at - mark.startedAt)))
  {
    var key, init, limits := uses[i].key, uses[..i], LimitsFor(maxBuckets);
    PrefixNeverEvicted(uses, limits, key, i);
    TableTracks(init, maxBuckets, key, uses[i].at);
    TableOrdered(init, limits, uses[i].at);
    assert Spared(TableAfter(init, limits), limits, key, Window(key), key.options.limit + 1, uses[i].at, key);
    TracksItself(TableAfter(init, limits), limits, key, Window(key), key.options.limit + 1, MarkAfter(init, key, Window(key)), uses[i].at, uses[i].at);
  }

  /** The consumes of a key that the limiter lets through in any interval as long as the window
      are at most twice the limit, and at most the limit when they share a window. */
  lemma QuotaHolds(uses: seq<Use<QuotaKey>>, maxBuckets: nat, key: QuotaKey, from: real, admitted: set<nat>)
    requires ValidUses(uses) && ValidOptions(key.options) && NeverEvicted(uses, LimitsFor(maxBuckets), key)
    requires forall i :: i in admitted ==>
               && i < |uses| && uses[i].key == key && from <= uses[i].at <= from + Window(key)
               && Decision(TableAfter(uses[..i], LimitsFor(maxBuckets)), key, uses[i].at) == Decided(true, 0)
    ensures |admitted| <= 2 * key.options.limit
    ensures (forall i, j :: i in admitted && j in admitted ==> MarkAt(uses, Window(key), i).startedAt == MarkAt(uses, Window(key), j).startedAt)
              ==> |admitted| <= key.options.limit
  {
    forall i | i in admitted ensures Admitted(uses, Window(key), key.options.limit, i) {
      DecisionIsIdeal(uses, maxBuckets, i);
    }
    IntervalAdmits(uses, Window(key), key.options.limit, key, from, admitted);
    if admitted != {} && forall i, j :: i in admitted && j in admitted ==> MarkAt(uses, Window(key), i).startedAt == MarkAt(uses, Window(key), j).startedAt {
      var i :| i in admitted;
      WindowAdmits(uses, Window(key), key.options.limit, key, MarkAt(uses, Window(key), i).startedAt, admitted);
    }
  }

  /** retryAfterMs is the least whole number of milliseconds after which the key opens a new window. */
  lemma RetryAfterIsExact(t: Table<QuotaKey>, key: QuotaKey, now: real)
    requires ValidOptions(key.options) && !Decision(t, key, now).ok
    ensures var wait := Decision(t, key, now).retryAfterMs;
            var b := BucketFor(t, key, now);
            now + wait as real - b.startedAt >= Window(key) && now + (wait - 1) as real - b.startedAt < Window(key)
  {
  }
}
