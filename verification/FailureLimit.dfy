/** The limit on failed authentications with Access keys (src/access-keys-runtime.ts): a table that
    does not expire windows, only idle keys, asked before an attempt, counting failures, and cleared
    by a success. */
module FailureLimit {
  import opened FixedWindow

  const LIMITS: Limits := Limits(10_000, 900_000.0, false)

  /** A failure or a success of a key; a success deletes the key. */
  datatype Event = Event(key: string, at: real, failed: bool)

  class FailureLimiter {
    const windows: BoundedFixedWindow<string>

    constructor ()
      ensures windows.buckets == [] && windows.limits == LIMITS && windows.Valid() && fresh(windows)
    {
      windows := new BoundedFixedWindow(LIMITS);
    }

    /** assertAccessKeyFailureLimit: whether the attempt may go on. */
    method Assert(key: string, limit: int, windowMs: real, now: real) returns (allowed: bool)
      ensures allowed <==> !Exhausted(Get(windows.buckets, key), limit, windowMs, now)
    {
      allowed := windows.RetryAfter(key, limit, windowMs, now) == 0;
    }

    /** recordAccessKeyFailure and clearAccessKeyFailure. */
    method Conclude(event: Event, windowMs: real)
      requires windows.Valid()
      modifies windows
      ensures windows.Valid() && windows.buckets == After(old(windows.buckets), windows.limits, event, windowMs)
    {
      if event.failed {
        var _ := windows.Record(event.key, windowMs, MAX_SAFE_INTEGER, event.at);
      } else {
        var _ := windows.Delete(event.key);
      }
    }
  }

  // ---------- runs ----------

  function After(t: Table<string>, limits: Limits, event: Event, windowMs: real): Table<string> {
    if event.failed then Recorded(t, limits, event.key, windowMs, MAX_SAFE_INTEGER, event.at) else Without(t, event.key)
  }

  function TableAfter(t: Table<string>, limits: Limits, events: seq<Event>, windowMs: real): Table<string> {
    if events == [] then t
    else After(TableAfter(t, limits, events[..|events| - 1], windowMs), limits, events[|events| - 1], windowMs)
  }

  /** The window of a key in an unbounded table: every failure counts, a success starts over. */
  function IdealAfter(events: seq<Event>, key: string, windowMs: real): Option<Mark> {
    if events == [] then None
    else
      var before, last := IdealAfter(events[..|events| - 1], key, windowMs), events[|events| - 1];
      if last.key != key then before
      else if last.failed then Some(NextMark(before, windowMs, last.at))
      else None
  }

  ghost predicate InTime(events: seq<Event>, start: real, end: real) {
    && (forall i, j :: 0 <= i <= j < |events| ==> events[i].at <= events[j].at)
    && (forall i :: 0 <= i < |events| ==> start <= events[i].at <= end)
    && start <= end
  }

  /** No eviction for lack of room hits the key. */
  ghost predicate NeverEvicted(t: Table<string>, limits: Limits, events: seq<Event>, windowMs: real, key: string) {
    forall i :: 0 <= i < |events| && events[i].failed ==>
      Spared(TableAfter(t, limits, events[..i], windowMs), limits, events[i].key, windowMs, MAX_SAFE_INTEGER, events[i].at, key)
  }

  lemma PrefixRun(t: Table<string>, limits: Limits, events: seq<Event>, windowMs: real, key: string, start: real, end: real, n: nat)
    requires InTime(events, start, end) && NeverEvicted(t, limits, events, windowMs, key) && n <= |events|
    ensures NeverEvicted(t, limits, events[..n], windowMs, key)
    ensures InTime(events[..n], start, if n < |events| then events[n].at else end)
  {
    hide Spared, TableAfter;
    assert forall i :: 0 <= i < n ==> events[..n][..i] == events[..i];
  }

  lemma ClearedOrdered(t: Table<string>, limits: Limits, key: string, now: real)
    requires Ordered(t, limits, now)
    ensures Ordered(Without(t, key), limits, now)
  {
    WithoutIsSub(t, key);
    SubTableKeeps(Without(t, key), t, now);
  }

  lemma LaterOrdered(t: Table<string>, limits: Limits, now: real, later: real)
    requires Ordered(t, limits, now) && now <= later
    ensures Ordered(t, limits, later)
  {
  }

  /** In every run, from any table that has forgotten the key: the bounded table stays ordered, and
      agrees with the ideal one about a key that is never evicted. */
  lemma {:induction false} TableTracks(t: Table<string>, limits: Limits, events: seq<Event>, windowMs: real, key: string, start: real, end: real)
    requires Ordered(t, limits, start) && Get(t, key).None? && windowMs <= limits.idleMs
    requires InTime(events, start, end) && NeverEvicted(t, limits, events, windowMs, key)
    ensures Ordered(TableAfter(t, limits, events, windowMs), limits, end)
    ensures Tracks(TableAfter(t, limits, events, windowMs), key, IdealAfter(events, key, windowMs), windowMs, MAX_SAFE_INTEGER, end)
    decreases |events|
  {
    if events == [] {
      LaterOrdered(t, limits, start, end);
    } else {
      var init, last := events[..|events| - 1], events[|events| - 1];
      PrefixRun(t, limits, events, windowMs, key, start, end, |events| - 1);
      TableTracks(t, limits, init, windowMs, key, start, last.at);
      var before := TableAfter(t, limits, init, windowMs);
      assert last.failed ==> Spared(before, limits, last.key, windowMs, MAX_SAFE_INTEGER, last.at, key);
      EventTracks(before, limits, last, windowMs, key, IdealAfter(init, key, windowMs), last.at);
      LaterOrdered(TableAfter(t, limits, events, windowMs), limits, last.at, end);
      TracksLater(TableAfter(t, limits, events, windowMs), key, IdealAfter(events, key, windowMs), windowMs, MAX_SAFE_INTEGER, last.at, end);
    }
  }

  lemma EventTracks(t: Table<string>, limits: Limits, event: Event, windowMs: real, key: string, ideal: Option<Mark>, now: real)
    requires Ordered(t, limits, now) && event.at == now && windowMs <= limits.idleMs
    requires Tracks(t, key, ideal, windowMs, MAX_SAFE_INTEGER, now)
    requires event.failed ==> Spared(t, limits, event.key, windowMs, MAX_SAFE_INTEGER, now, key)
    ensures Ordered(After(t, limits, event, windowMs), limits, now)
    ensures Tracks(After(t, limits, event, windowMs), key,
                   if event.key != key then ideal else if event.failed then Some(NextMark(ideal, windowMs, now)) else None,
                   windowMs, MAX_SAFE_INTEGER, now)
  {
    hide Ordered, Recorded, Spared, NextMark;
    if event.failed {
      RecordedOrdered(t, limits, event.key, windowMs, MAX_SAFE_INTEGER, now, now);
      if event.key == key {
        TracksItself(t, limits, key, windowMs, MAX_SAFE_INTEGER, ideal, now, now);
      } else {
        TracksBesides(t, limits, key, windowMs, MAX_SAFE_INTEGER, ideal, event.key, windowMs, MAX_SAFE_INTEGER, now, now);
      }
    } else {
      ClearedOrdered(t, limits, event.key, now);
      WithoutIsSub(t, event.key);
    }
  }

  /** An attempt is refused exactly when the unbounded table counts the limit of failures in a window
      that is not over. */
  lemma RefusedIsIdeal(t: Table<string>, limits: Limits, events: seq<Event>, windowMs: real, key: string, start: real, now: real, limit: int)
    requires Ordered(t, limits, start) && Get(t, key).None? && windowMs <= limits.idleMs && limit <= MAX_SAFE_INTEGER
    requires InTime(events, start, now) && NeverEvicted(t, limits, events, windowMs, key)
    ensures var ideal := IdealAfter(events, key, windowMs);
            Exhausted(Get(TableAfter(t, limits, events, windowMs), key), limit, windowMs, now) <==>
              ideal.Some? && ideal.value.count >= limit && now - ideal.value.startedAt < windowMs
  {
    TableTracks(t, limits, events, windowMs, key, start, now);
  }

  // ---------- how many failures get through ----------

  /** The events as uses; without successes of the key, those of others do not matter to it. */
  function Uses(events: seq<Event>): seq<Use<string>> {
    seq(|events|, i requires 0 <= i < |events| => Use(events[i].key, events[i].at))
  }

  ghost predicate NoSuccess(events: seq<Event>, key: string) {
    forall i :: 0 <= i < |events| && events[i].key == key ==> events[i].failed
  }

  lemma {:induction false} IdealIsMark(events: seq<Event>, key: string, windowMs: real)
    requires NoSuccess(events, key)
    ensures IdealAfter(events, key, windowMs) == MarkAfter(Uses(events), key, windowMs)
    decreases |events|
  {
    if events != [] {
      var init := events[..|events| - 1];
      assert Uses(events)[..|events| - 1] == Uses(init);
      IdealIsMark(init, key, windowMs);
    }
  }

  /** A key that no success clears, as the keys of the source limiter: of its failures that follow their
      check at once, as those of malformed and doubled credentials do, at most the limit share a
      window, and at most twice the limit fall into any interval as long as a window, whatever other
      failures are recorded for it in between. */
  lemma SynchronousFailuresAreLimited(t: Table<string>, limits: Limits, events: seq<Event>, windowMs: real, key: string, start: real, end: real,
      limit: nat, from: real, through: set<nat>)
    requires Ordered(t, limits, start) && Get(t, key).None? && 0.0 < windowMs <= limits.idleMs && 0 < limit <= MAX_SAFE_INTEGER
    requires InTime(events, start, end) && NeverEvicted(t, limits, events, windowMs, key) && NoSuccess(events, key)
    requires forall i :: i in through ==>
               && i < |events| && events[i].key == key && from <= events[i].at <= from + windowMs
               && !Exhausted(Get(TableAfter(t, limits, events[..i], windowMs), key), limit, windowMs, events[i].at)
    ensures |through| <= 2 * limit
    ensures (forall i, j :: i in through && j in through ==> MarkAt(Uses(events), windowMs, i).startedAt == MarkAt(Uses(events), windowMs, j).startedAt)
            ==> |through| <= limit
  {
    hide MarkAt, Exhausted, TableAfter, Ordered, NeverEvicted;
    var uses := Uses(events);
    forall i | i in through ensures Admitted(uses, windowMs, limit, i) && uses[i].key == key && from <= uses[i].at <= from + windowMs {
      LetThroughIsAdmitted(t, limits, events, windowMs, key, start, end, limit, i);
    }
    IntervalAdmits(uses, windowMs, limit, key, from, through);
    if through != {} && forall i, j :: i in through && j in through ==> MarkAt(uses, windowMs, i).startedAt == MarkAt(uses, windowMs, j).startedAt {
      var i :| i in through;
      WindowAdmits(uses, windowMs, limit, key, MarkAt(uses, windowMs, i).startedAt, through);
    }
  }

  lemma LetThroughIsAdmitted(t: Table<string>, limits: Limits, events: seq<Event>, windowMs: real, key: string, start: real, end: real, limit: nat, i: nat)
    requires Ordered(t, limits, start) && Get(t, key).None? && 0.0 < windowMs <= limits.idleMs && 0 < limit <= MAX_SAFE_INTEGER
    requires InTime(events, start, end) && NeverEvicted(t, limits, events, windowMs, key) && NoSuccess(events, key)
    requires i < |events| && events[i].key == key
    requires !Exhausted(Get(TableAfter(t, limits, events[..i], windowMs), key), limit, windowMs, events[i].at)
    ensures Admitted(Uses(events), windowMs, limit, i)
  {
    PrefixRun(t, limits, events, windowMs, key, start, end, i);
    hide NeverEvicted, Ordered, Exhausted, TableAfter;
    RefusedIsIdeal(t, limits, events[..i], windowMs, key, start, events[i].at, limit);
    IdealIsMark(events[..i], key, windowMs);
    assert Uses(events)[..i] == Uses(events[..i]);
  }
}
