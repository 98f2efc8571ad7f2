/** Failed authentications with Access keys, whose check and conclusion are separate steps
    (src/access-keys-runtime.ts): a lookup is awaited in between, so that attempts overlap, and each of
    them was let through by the table it saw at its check. */
module FailureAttempts {

  import opened FixedWindow
  import opened FailureLimit

  type Attempt = nat

  /** An attempt may also end without either, when the lookup throws. */
  datatype Outcome = Failed | Succeeded | Abandoned

  datatype Action =
    | Check(attempt: Attempt, key: string, at: real)
    | Conclude(attempt: Attempt, key: string, at: real, outcome: Outcome)

  datatype Setup = Setup(limits: Limits, limit: nat, windowMs: real)

  /** The table, and the attempts that were let through and have not concluded, with their keys. */
  datatype Attempts = Attempts(table: Table<string>, flying: map<Attempt, string>)

  predicate Fits(a: Attempts, action: Action) {
    match action
    case Check(attempt, _, _) => attempt !in a.flying
    case Conclude(attempt, key, _, _) => attempt in a.flying && a.flying[attempt] == key
  }

  function Acted(s: Setup, a: Attempts, action: Action): Attempts {
    match action
    case Check(attempt, key, at) =>
      if Exhausted(Get(a.table, key), s.limit, s.windowMs, at) then a else a.(flying := a.flying[attempt := key])
    case Conclude(attempt, key, at, outcome) =>
      var table := if outcome.Abandoned? then a.table else After(a.table, s.limits, Event(key, at, outcome.Failed?), s.windowMs);
      Attempts(table, a.flying - {attempt})
  }

  function Reached(s: Setup, a: Attempts, actions: seq<Action>): Attempts {
    if actions == [] then a
    else Acted(s, Reached(s, a, actions[..|actions| - 1]), actions[|actions| - 1])
  }

  function Flying(a: Attempts, key: string): set<Attempt> {
    set x | x in a.flying && a.flying[x] == key
  }

  /** The failures that a run records. */
  function Failures(actions: seq<Action>): seq<Use<string>> {
    if actions == [] then []
    else
      var last := actions[|actions| - 1];
      Failures(actions[..|actions| - 1]) + if last.Conclude? && last.outcome.Failed? then [Use(last.key, last.at)] else []
  }

  // ---------- runs ----------

  ghost predicate Timely(actions: seq<Action>, start: real, end: real) {
    && (forall i, j :: 0 <= i <= j < |actions| ==> actions[i].at <= actions[j].at)
    && (forall i :: 0 <= i < |actions| ==> start <= actions[i].at <= end)
    && start <= end
  }

  ghost predicate Fitting(s: Setup, a: Attempts, actions: seq<Action>) {
    forall i :: 0 <= i < |actions| ==> Fits(Reached(s, a, actions[..i]), actions[i])
  }

  /** No eviction for lack of room hits the key, and no success clears it. */
  ghost predicate Kept(s: Setup, a: Attempts, actions: seq<Action>, key: string) {
    forall i :: 0 <= i < |actions| && actions[i].Conclude? ==>
      && (actions[i].outcome.Failed? ==>
            Spared(Reached(s, a, actions[..i]).table, s.limits, actions[i].key, s.windowMs, MAX_SAFE_INTEGER, actions[i].at, key))
      && (actions[i].outcome.Succeeded? ==> actions[i].key != key)
  }

  /** At no time are more than this many attempts with the key in flight. */
  ghost predicate Overlap(s: Setup, a: Attempts, actions: seq<Action>, key: string, most: nat) {
    forall i :: 0 <= i <= |actions| ==> |Flying(Reached(s, a, actions[..i]), key)| <= most
  }

  lemma Prefix(s: Setup, a: Attempts, actions: seq<Action>, key: string, most: nat, start: real, end: real)
    requires actions != [] && Timely(actions, start, end) && Fitting(s, a, actions) && Kept(s, a, actions, key) && Overlap(s, a, actions, key, most)
    ensures var init := actions[..|actions| - 1];
            && Timely(init, start, actions[|actions| - 1].at) && Fitting(s, a, init) && Kept(s, a, init, key) && Overlap(s, a, init, key, most)
  {
    hide Reached, Fits, Spared, Flying;
    var n := |actions| - 1;
    assert forall i :: 0 <= i <= n ==> actions[..n][..i] == actions[..i];
  }

  // ---------- the bound ----------

  /** While the window is open and has reached the limit, its count and the attempts in flight stay
      below the limit and the overlap. */
  ghost predicate Bounded(s: Setup, m: Option<Mark>, flying: nat, most: nat, now: real) {
    m.Some? && now - m.value.startedAt < s.windowMs && m.value.count >= s.limit ==> m.value.count + flying < s.limit + most
  }

  /** What holds of the key after a run. */
  ghost predicate Held(s: Setup, a: Attempts, m: Option<Mark>, key: string, most: nat, now: real) {
    && Ordered(a.table, s.limits, now) && Tracks(a.table, key, m, s.windowMs, MAX_SAFE_INTEGER, now)
    && Bounded(s, m, |Flying(a, key)|, most, now)
  }

  ghost predicate Sensible(s: Setup) {
    0.0 < s.windowMs <= s.limits.idleMs && 0 < s.limit <= MAX_SAFE_INTEGER
  }

  lemma HeldLater(s: Setup, a: Attempts, m: Option<Mark>, key: string, most: nat, now: real, later: real)
    requires Held(s, a, m, key, most, now) && now <= later
    ensures Held(s, a, m, key, most, later)
  {
    LaterOrdered(a.table, s.limits, now, later);
    TracksLater(a.table, key, m, s.windowMs, MAX_SAFE_INTEGER, now, later);
  }

  lemma CheckHeld(s: Setup, a: Attempts, m: Option<Mark>, key: string, most: nat, action: Action)
    requires Sensible(s) && action.Check? && Held(s, a, m, key, most, action.at) && Fits(a, action)
    ensures Held(s, Acted(s, a, action), m, key, most, action.at)
  {
    var b := Acted(s, a, action);
    if action.key != key { assert Flying(b, key) == Flying(a, key); }
  }

  lemma Landing(a: Attempts, b: Attempts, attempt: Attempt, key: string)
    requires attempt in a.flying && b.flying == a.flying - {attempt}
    ensures |Flying(b, key)| == if a.flying[attempt] == key then |Flying(a, key)| - 1 else |Flying(a, key)|
  {
    if a.flying[attempt] == key {
      assert Flying(b, key) == Flying(a, key) - {attempt};
      assert attempt in Flying(a, key);
    } else {
      assert Flying(b, key) == Flying(a, key);
    }
  }

  function MarkOf(s: Setup, m: Option<Mark>, key: string, action: Action): Option<Mark> {
    if action.Conclude? && action.outcome.Failed? && action.key == key then Some(NextMark(m, s.windowMs, action.at)) else m
  }

  lemma ConcludeHeld(s: Setup, a: Attempts, m: Option<Mark>, key: string, most: nat, action: Action)
    requires Sensible(s) && action.Conclude? && Held(s, a, m, key, most, action.at) && Fits(a, action) && |Flying(a, key)| <= most
    requires action.outcome.Failed? ==> Spared(a.table, s.limits, action.key, s.windowMs, MAX_SAFE_INTEGER, action.at, key)
    requires action.outcome.Succeeded? ==> action.key != key
    ensures Held(s, Acted(s, a, action), MarkOf(s, m, key, action), key, most, action.at)
    ensures action.outcome.Failed? && action.key == key ==> NextMark(m, s.windowMs, action.at).count < s.limit + most
  {
    var b := Acted(s, a, action);
    hide Ordered, Tracks, Spared, After, Flying;
    Landing(a, b, action.attempt, key);
    if !action.outcome.Abandoned? {
      EventTracks(a.table, s.limits, Event(action.key, action.at, action.outcome.Failed?), s.windowMs, key, m, action.at);
    }
  }

  lemma StepHeld(s: Setup, a: Attempts, m: Option<Mark>, key: string, most: nat, action: Action)
    requires Sensible(s) && Held(s, a, m, key, most, action.at) && Fits(a, action) && |Flying(a, key)| <= most
    requires action.Conclude? && action.outcome.Failed? ==> Spared(a.table, s.limits, action.key, s.windowMs, MAX_SAFE_INTEGER, action.at, key)
    requires action.Conclude? && action.outcome.Succeeded? ==> action.key != key
    ensures Held(s, Acted(s, a, action), MarkOf(s, m, key, action), key, most, action.at)
    ensures MarkOf(s, m, key, action) != m ==> NextMark(m, s.windowMs, action.at).count < s.limit + most
  {
    if action.Check? { CheckHeld(s, a, m, key, most, action); } else { ConcludeHeld(s, a, m, key, most, action); }
  }

  ghost predicate AllWithin(uses: seq<Use<string>>, key: string, windowMs: real, bound: int) {
    forall i :: 0 <= i < |uses| && uses[i].key == key ==> Admitted(uses, windowMs, bound, i)
  }

  /** In every run, from any state in which the key is forgotten: what holds, and how many failures a
      window comes to count. */
  lemma {:induction false} RunHeld(s: Setup, a: Attempts, actions: seq<Action>, key: string, most: nat, start: real, end: real)
    requires Sensible(s) && Ordered(a.table, s.limits, start) && Get(a.table, key).None?
    requires Timely(actions, start, end) && Fitting(s, a, actions) && Kept(s, a, actions, key) && Overlap(s, a, actions, key, most)
    ensures Held(s, Reached(s, a, actions), MarkAfter(Failures(actions), key, s.windowMs), key, most, end)
    ensures AllWithin(Failures(actions), key, s.windowMs, s.limit + most - 1)
    decreases |actions|
  {
    if actions == [] {
      LaterOrdered(a.table, s.limits, start, end);
    } else {
      var n := |actions| - 1;
      var init, last := actions[..n], actions[n];
      Prefix(s, a, actions, key, most, start, end);
      RunHeld(s, a, init, key, most, start, last.at);
      assert actions[..n] == init && Fits(Reached(s, a, init), last) && |Flying(Reached(s, a, init), key)| <= most;
      var m := MarkAfter(Failures(init), key, s.windowMs);
      StepHeld(s, Reached(s, a, init), m, key, most, last);
      FailuresGrow(s, actions, key, s.limit + most - 1);
      HeldLater(s, Reached(s, a, actions), MarkAfter(Failures(actions), key, s.windowMs), key, most, last.at, end);
    }
  }

  lemma FailuresGrow(s: Setup, actions: seq<Action>, key: string, bound: int)
    requires actions != []
    requires AllWithin(Failures(actions[..|actions| - 1]), key, s.windowMs, bound)
    requires var m, last := MarkAfter(Failures(actions[..|actions| - 1]), key, s.windowMs), actions[|actions| - 1];
             last.Conclude? && last.outcome.Failed? && last.key == key ==> NextMark(m, s.windowMs, last.at).count <= bound
    ensures AllWithin(Failures(actions), key, s.windowMs, bound)
    ensures MarkAfter(Failures(actions), key, s.windowMs) ==
            MarkOf(s, MarkAfter(Failures(actions[..|actions| - 1]), key, s.windowMs), key, actions[|actions| - 1])
  {
    var before, uses := Failures(actions[..|actions| - 1]), Failures(actions);
    if uses != before {
      assert uses[..|before|] == before;
      forall i | 0 <= i < |uses| && uses[i].key == key ensures Admitted(uses, s.windowMs, bound, i) {
        if i < |before| {
          assert uses[..i] == before[..i];
          assert Admitted(before, s.windowMs, bound, i);
        }
      }
    }
  }

  lemma {:induction false} FailuresInOrder(actions: seq<Action>, start: real, end: real)
    requires Timely(actions, start, end)
    ensures FixedWindow.InOrder(Failures(actions)) && forall i :: 0 <= i < |Failures(actions)| ==> Failures(actions)[i].at <= end
    decreases |actions|
  {
    if actions != [] {
      var n := |actions| - 1;
      FailuresInOrder(actions[..n], start, actions[n].at);
    }
  }

  /** Since a key was last forgotten or cleared, and while at most so many attempts with it overlap: a
      window counts fewer failures than the limit and the overlap together, and any interval as long as
      a window fewer than twice as many. */
  lemma OverlapBoundsFailures(s: Setup, a: Attempts, actions: seq<Action>, key: string, most: nat, start: real, end: real, from: real, failed: set<nat>)
    requires Sensible(s) && Ordered(a.table, s.limits, start) && Get(a.table, key).None? && most > 0
    requires Timely(actions, start, end) && Fitting(s, a, actions) && Kept(s, a, actions, key) && Overlap(s, a, actions, key, most)
    requires forall i :: i in failed ==> i < |Failures(actions)| && Failures(actions)[i].key == key && from <= Failures(actions)[i].at <= from + s.windowMs
    ensures |failed| <= 2 * (s.limit + most - 1)
    ensures (forall i, j :: i in failed && j in failed ==>
               MarkAt(Failures(actions), s.windowMs, i).startedAt == MarkAt(Failures(actions), s.windowMs, j).startedAt)
            ==> |failed| <= s.limit + most - 1
  {
    hide MarkAt, Overlap, Kept, Fitting, Timely, Failures, Ordered, Held;
    var uses, bound := Failures(actions), s.limit + most - 1;
    RunHeld(s, a, actions, key, most, start, end);
    FailuresInOrder(actions, start, end);
    IntervalAdmits(uses, s.windowMs, bound, key, from, failed);
    if failed != {} && forall i, j :: i in failed && j in failed ==> MarkAt(uses, s.windowMs, i).startedAt == MarkAt(uses, s.windowMs, j).startedAt {
      var i :| i in failed;
      WindowAdmits(uses, s.windowMs, bound, key, MarkAt(uses, s.windowMs, i).startedAt, failed);
    }
  }

  // ---------- the bound is reached ----------

  const SELECTOR: string := "selector"
  const WINDOW: real := 300_000.0
  const NOTHING: Attempts := Attempts([], map[])

  function Usual(limit: nat): Setup { Setup(LIMITS, limit, WINDOW) }

  /** The table after so many failures at one time. */
  function Counting(count: nat): Table<string> {
    if count == 0 then [] else [Entry(SELECTOR, Bucket(count, 0.0, 0.0, WINDOW))]
  }

  lemma OneMore(count: nat)
    requires count < MAX_SAFE_INTEGER
    ensures Recorded(Counting(count), LIMITS, SELECTOR, WINDOW, MAX_SAFE_INTEGER, 0.0) == Counting(count + 1)
  {
    var t := Counting(count);
    assert Without(t, SELECTOR) == [] by { if count > 0 { assert t[1..] == []; } }
    var e := [Entry(SELECTOR, NextBucket(Get(t, SELECTOR), WINDOW, MAX_SAFE_INTEGER, 0.0))];
    assert Without(t, SELECTOR) + e == e;
    assert FromFirstInUse(e, LIMITS.idleMs, 0.0) == e;
  }

  /** Attempts that are let through one after another without concluding. */
  function Checks(first: Attempt, count: nat): seq<Action> {
    if count == 0 then [] else Checks(first, count - 1) + [Check(first + count - 1, SELECTOR, 0.0)]
  }

  /** Their failures. */
  function Fails(first: Attempt, count: nat): seq<Action> {
    if count == 0 then [] else Fails(first, count - 1) + [Conclude(first + count - 1, SELECTOR, 0.0, Failed)]
  }

  /** Attempts that do not overlap, and fail. */
  function InTurns(count: nat): seq<Action> {
    if count == 0 then [] else InTurns(count - 1) + [Check(count - 1, SELECTOR, 0.0), Conclude(count - 1, SELECTOR, 0.0, Failed)]
  }

  /** A run at one instant in which every check lets its attempt through, and no key is evicted. */
  ghost predicate LetsAllThrough(s: Setup, actions: seq<Action>, most: nat) {
    && Timely(actions, 0.0, 0.0) && Fitting(s, NOTHING, actions) && Overlap(s, NOTHING, actions, SELECTOR, most)
    && forall i :: 0 <= i < |actions| ==> MayCome(s, Reached(s, NOTHING, actions[..i]), actions[i])
  }

  ghost predicate MayCome(s: Setup, a: Attempts, action: Action) {
    && Fits(a, action) && action.at == 0.0 && action.key == SELECTOR
    && (action.Check? ==> !Exhausted(Get(a.table, SELECTOR), s.limit, s.windowMs, 0.0))
    && (action.Conclude? && action.outcome.Failed? ==> Spared(a.table, s.limits, SELECTOR, s.windowMs, MAX_SAFE_INTEGER, 0.0, SELECTOR))
  }

  /** A run, the state it reaches, and the number of failures it records. */
  ghost predicate Goes(s: Setup, actions: seq<Action>, most: nat, b: Attempts, failures: nat) {
    LetsAllThrough(s, actions, most) && Reached(s, NOTHING, actions) == b && |Failures(actions)| == failures
  }

  lemma MoreFits(s: Setup, actions: seq<Action>, action: Action)
    requires forall i :: 0 <= i < |actions| ==> MayCome(s, Reached(s, NOTHING, actions[..i]), actions[i])
    requires MayCome(s, Reached(s, NOTHING, actions), action)
    ensures var more := actions + [action]; forall i :: 0 <= i < |more| ==> MayCome(s, Reached(s, NOTHING, more[..i]), more[i])
  {
    hide MayCome, Reached;
    var more := actions + [action];
    forall i | 0 <= i < |more| ensures MayCome(s, Reached(s, NOTHING, more[..i]), more[i]) { assert more[..i] == actions[..i]; }
    assert actions[..|actions|] == actions;
  }

  lemma MoreOverlap(s: Setup, actions: seq<Action>, most: nat, action: Action)
    requires Overlap(s, NOTHING, actions, SELECTOR, most) && |Flying(Acted(s, Reached(s, NOTHING, actions), action), SELECTOR)| <= most
    ensures Overlap(s, NOTHING, actions + [action], SELECTOR, most) && Reached(s, NOTHING, actions + [action]) == Acted(s, Reached(s, NOTHING, actions), action)
  {
    hide Flying, Acted;
    var n, more := |actions|, actions + [action];
    assert more[..n] == actions && more[..n + 1] == more;
    forall i | 0 <= i <= |more| ensures |Flying(Reached(s, NOTHING, more[..i]), SELECTOR)| <= most {
      assert i <= n ==> more[..i] == actions[..i];
    }
  }

  lemma OneMoreAction(s: Setup, actions: seq<Action>, most: nat, b: Attempts, failures: nat, action: Action)
    requires Goes(s, actions, most, b, failures) && MayCome(s, b, action) && |Flying(Acted(s, b, action), SELECTOR)| <= most
    ensures Goes(s, actions + [action], most, Acted(s, b, action), failures + if action.Conclude? && action.outcome.Failed? then 1 else 0)
  {
    hide MayCome, Flying, Acted, Overlap, Reached;
    var more := actions + [action];
    MoreFits(s, actions, action);
    MoreOverlap(s, actions, most, action);
    forall i | 0 <= i < |more| ensures Fits(Reached(s, NOTHING, more[..i]), more[i]) && more[i].at == 0.0 {
      FitsAtOnce(s, Reached(s, NOTHING, more[..i]), more[i]);
    }
    assert more[..|more| - 1] == actions;
  }

  lemma FitsAtOnce(s: Setup, a: Attempts, action: Action)
    requires MayCome(s, a, action)
    ensures Fits(a, action) && action.at == 0.0
  {
  }

  /** The attempts in flight, numbered from the first. */
  function Flock(first: Attempt, count: nat): map<Attempt, string> {
    if count == 0 then map[] else Flock(first, count - 1)[first + count - 1 := SELECTOR]
  }

  lemma {:induction false} FlockIs(first: Attempt, count: nat)
    ensures forall i :: i in Flock(first, count) <==> first <= i < first + count
    ensures forall i :: i in Flock(first, count) ==> Flock(first, count)[i] == SELECTOR
    decreases count
  {
    if count > 0 { FlockIs(first, count - 1); }
  }

  lemma FirstLeaves(first: Attempt, count: nat)
    requires count > 0
    ensures first in Flock(first, count) && Flock(first, count)[first] == SELECTOR && Flock(first, count) - {first} == Flock(first + 1, count - 1)
  {
    FlockIs(first, count);
    FlockIs(first + 1, count - 1);
    hide Flock;
  }

  lemma {:induction false} FlockSize(table: Table<string>, first: Attempt, count: nat)
    ensures |Flying(Attempts(table, Flock(first, count)), SELECTOR)| == count
    decreases count
  {
    if count > 0 {
      FlockSize(table, first, count - 1);
      FlockIs(first, count - 1);
      assert Flying(Attempts(table, Flock(first, count)), SELECTOR) == Flying(Attempts(table, Flock(first, count - 1)), SELECTOR) + {first + count - 1};
    } else {
      assert Flying(Attempts(table, Flock(first, 0)), SELECTOR) == {};
    }
  }

  lemma CheckComes(s: Setup, actions: seq<Action>, most: nat, table: Table<string>, first: Attempt, flying: nat, failures: nat)
    requires Goes(s, actions, most, Attempts(table, Flock(first, flying)), failures) && flying < most
    requires !Exhausted(Get(table, SELECTOR), s.limit, s.windowMs, 0.0)
    ensures Goes(s, actions + [Check(first + flying, SELECTOR, 0.0)], most, Attempts(table, Flock(first, flying + 1)), failures)
  {
    hide Goes, Exhausted, Flying;
    var b, action := Attempts(table, Flock(first, flying)), Check(first + flying, SELECTOR, 0.0);
    FlockIs(first, flying);
    FlockSize(table, first, flying + 1);
    OneMoreAction(s, actions, most, b, failures, action);
  }

  lemma CountedIsSpared(count: nat)
    requires count < MAX_SAFE_INTEGER
    ensures Spared(Counting(count), LIMITS, SELECTOR, WINDOW, MAX_SAFE_INTEGER, 0.0, SELECTOR)
  {
    OneMore(count);
    hide Recorded;
  }

  lemma FailureComes(s: Setup, actions: seq<Action>, most: nat, count: nat, first: Attempt, flying: nat, failures: nat)
    requires s.limits == LIMITS && s.windowMs == WINDOW && 0 < flying <= most && count < MAX_SAFE_INTEGER
    requires Goes(s, actions, most, Attempts(Counting(count), Flock(first, flying)), failures)
    ensures Goes(s, actions + [Conclude(first, SELECTOR, 0.0, Failed)], most, Attempts(Counting(count + 1), Flock(first + 1, flying - 1)), failures + 1)
  {
    hide Goes, Recorded, Spared, Counting, Flock, Flying, Exhausted;
    var b, action := Attempts(Counting(count), Flock(first, flying)), Conclude(first, SELECTOR, 0.0, Failed);
    OneMore(count);
    CountedIsSpared(count);
    FirstLeaves(first, flying);
    FlockSize(Counting(count + 1), first + 1, flying - 1);
    OneMoreAction(s, actions, most, b, failures, action);
  }

  lemma StillOpen(count: nat, limit: nat)
    requires count < limit
    ensures !Exhausted(Get(Counting(count), SELECTOR), limit, WINDOW, 0.0)
  {
  }

  lemma {:induction false} ChecksCome(s: Setup, actions: seq<Action>, most: nat, count: nat, first: Attempt, checks: nat, failures: nat)
    requires s.limits == LIMITS && s.windowMs == WINDOW && count < s.limit && checks <= most
    requires Goes(s, actions, most, Attempts(Counting(count), map[]), failures)
    ensures Goes(s, actions + Checks(first, checks), most, Attempts(Counting(count), Flock(first, checks)), failures)
    decreases checks
  {
    hide Goes;
    if checks == 0 {
      assert actions + Checks(first, 0) == actions && Flock(first, 0) == map[];
    } else {
      ChecksCome(s, actions, most, count, first, checks - 1, failures);
      StillOpen(count, s.limit);
      CheckComes(s, actions + Checks(first, checks - 1), most, Counting(count), first, checks - 1, failures);
      assert actions + Checks(first, checks) == (actions + Checks(first, checks - 1)) + [Check(first + checks - 1, SELECTOR, 0.0)];
    }
  }

  lemma {:induction false} FailsCome(s: Setup, actions: seq<Action>, most: nat, count: nat, first: Attempt, flying: nat, fails: nat, failures: nat)
    requires s.limits == LIMITS && s.windowMs == WINDOW && fails <= flying <= most && count + fails <= MAX_SAFE_INTEGER
    requires Goes(s, actions, most, Attempts(Counting(count), Flock(first, flying)), failures)
    ensures Goes(s, actions + Fails(first, fails), most, Attempts(Counting(count + fails), Flock(first + fails, flying - fails)), failures + fails)
    decreases fails
  {
    hide Goes;
    if fails == 0 {
      assert actions + Fails(first, 0) == actions;
    } else {
      FailsCome(s, actions, most, count, first, flying, fails - 1, failures);
      FailureComes(s, actions + Fails(first, fails - 1), most, count + fails - 1, first + fails - 1, flying - (fails - 1), failures + fails - 1);
      assert actions + Fails(first, fails) == (actions + Fails(first, fails - 1)) + [Conclude(first + fails - 1, SELECTOR, 0.0, Failed)];
    }
  }

  lemma {:induction false} InTurnsCome(s: Setup, actions: seq<Action>, most: nat, count: nat, failures: nat)
    requires s.limits == LIMITS && s.windowMs == WINDOW && count <= s.limit <= MAX_SAFE_INTEGER && most > 0
    requires Goes(s, actions, most, NOTHING, failures)
    ensures Goes(s, actions + InTurns(count), most, Attempts(Counting(count), map[]), failures + count)
    decreases count
  {
    hide Goes;
    if count == 0 {
      assert actions + InTurns(0) == actions;
    } else {
      InTurnsCome(s, actions, most, count - 1, failures);
      var before := actions + InTurns(count - 1);
      StillOpen(count - 1, s.limit);
      assert Flock(count - 1, 0) == map[] && Flock(count, 0) == map[];
      CheckComes(s, before, most, Counting(count - 1), count - 1, 0, failures + count - 1);
      FailureComes(s, before + [Check(count - 1, SELECTOR, 0.0)], most, count - 1, count - 1, 1, failures + count - 1);
      assert actions + InTurns(count) == (before + [Check(count - 1, SELECTOR, 0.0)]) + [Conclude(count - 1, SELECTOR, 0.0, Failed)];
    }
  }

  lemma NothingGoes(s: Setup, most: nat)
    ensures Goes(s, [], most, NOTHING, 0)
  {
    assert Flying(NOTHING, SELECTOR) == {};
  }

  /** The bound is reached for every limit and every overlap: all attempts but one up to the limit fail
      one after another, and then so many are let through together and fail. */
  lemma OverlapReachesBound(limit: nat, most: nat)
    requires 0 < limit && 0 < most && limit + most <= MAX_SAFE_INTEGER
    ensures var actions := InTurns(limit - 1) + Checks(limit - 1, most) + Fails(limit - 1, most);
            Goes(Usual(limit), actions, most, Attempts(Counting(limit + most - 1), map[]), limit + most - 1)
  {
    var s := Usual(limit);
    hide Goes;
    NothingGoes(s, most);
    InTurnsCome(s, [], most, limit - 1, 0);
    assert [] + InTurns(limit - 1) == InTurns(limit - 1);
    ChecksCome(s, InTurns(limit - 1), most, limit - 1, limit - 1, most, limit - 1);
    FailsCome(s, InTurns(limit - 1) + Checks(limit - 1, most), most, limit - 1, limit - 1, most, most, limit - 1);
    assert Flock(limit - 1 + most, 0) == map[];
  }

  /** Attempts that all come at once are all let through, however many they are. */
  lemma AllAtOnce(limit: nat, many: nat)
    requires 0 < limit && many <= MAX_SAFE_INTEGER
    ensures Goes(Usual(limit), Checks(0, many) + Fails(0, many), many, Attempts(Counting(many), map[]), many)
  {
    var s := Usual(limit);
    hide Goes, Checks, Fails, Flock;
    NothingGoes(s, many);
    ChecksCome(s, [], many, 0, 0, many, 0);
    assert [] + Checks(0, many) == Checks(0, many);
    FailsCome(s, Checks(0, many), many, 0, 0, many, many, 0);
    FlockIs(many, 0);
    assert Flock(many, 0) == map[];
  }

  // ---------- a success starts over ----------

  /** Failures up to the limit, and then a success; attempts do not overlap. */
  function Rounds(limit: nat, rounds: nat): seq<Action>
    requires limit > 0
  {
    if rounds == 0 then []
    else Rounds(limit, rounds - 1) + InTurns(limit - 1) + [Check(0, SELECTOR, 0.0)] + [Conclude(0, SELECTOR, 0.0, Succeeded)]
  }

  lemma SuccessComes(s: Setup, actions: seq<Action>, most: nat, count: nat, failures: nat)
    requires Goes(s, actions, most, Attempts(Counting(count), Flock(0, 1)), failures)
    ensures Goes(s, actions + [Conclude(0, SELECTOR, 0.0, Succeeded)], most, NOTHING, failures)
  {
    var b, action := Attempts(Counting(count), Flock(0, 1)), Conclude(0, SELECTOR, 0.0, Succeeded);
    assert Without(Counting(count), SELECTOR) == [] by { if count > 0 { assert Counting(count)[1..] == []; } }
    FirstLeaves(0, 1);
    assert Flying(NOTHING, SELECTOR) == {};
    OneMoreAction(s, actions, most, b, failures, action);
  }

  /** With successes in between, any number of failures is let through in one window. */
  lemma {:induction false} SuccessesStartOver(limit: nat, rounds: nat)
    requires 0 < limit <= MAX_SAFE_INTEGER
    ensures Goes(Usual(limit), Rounds(limit, rounds), 1, NOTHING, rounds * (limit - 1))
    decreases rounds
  {
    var s := Usual(limit);
    hide Goes;
    if rounds == 0 {
      NothingGoes(s, 1);
    } else {
      SuccessesStartOver(limit, rounds - 1);
      var before := Rounds(limit, rounds - 1);
      var failures := (rounds - 1) * (limit - 1);
      InTurnsCome(s, before, 1, limit - 1, failures);
      StillOpen(limit - 1, limit);
      assert Flock(0, 0) == map[];
      CheckComes(s, before + InTurns(limit - 1), 1, Counting(limit - 1), 0, 0, failures + limit - 1);
      SuccessComes(s, before + InTurns(limit - 1) + [Check(0, SELECTOR, 0.0)], 1, limit - 1, failures + limit - 1);
      assert failures + (limit - 1) == rounds * (limit - 1);
    }
  }
}
