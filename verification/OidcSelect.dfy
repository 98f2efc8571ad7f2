/** selectMicrosoftJwk as its callers run it (src/auth-runtime.ts): it looks the signing keys up
    without forcing, and when the key id is not among them it reads the generation of the entry and
    forces a refresh.  Both calls belong to one turn of the event loop or are joined by fetches, and a
    continuation runs behind whatever was queued before it; nothing else is assumed about their order. */
module OidcSelect {

  import opened OidcCache
  import opened OidcStamps
  import opened OidcFlight
  import opened OidcQueue

  type Selection = nat

  /** Where a selection is: its first call shares a fetch, or has started one, or has been answered
      while some fetches had ended and were not cleaned up. */
  datatype Stage = Sharing(waiter: Waiter) | Fetching(fetch: Request) | Answered(before: set<Request>)

  datatype Selecting = Selecting(key: Key, stage: Stage)

  /** The queue, the fetches started in the current turn, and the selections under way. */
  datatype Turns = Turns(queue: Queue, young: set<Request>, selections: map<Selection, Selecting>)

  datatype Move =
    | Look(p: Selection, call: Step)
    | Pick(p: Selection, call: Step)
    | Found(p: Selection)
    | Work(step: Step)
    | NewTurn

  /** The fetches that have ended and are still to be cleaned up. */
  function Unclean(q: Queue): set<Request> {
    set f | f in q.cache.fetches && !q.cache.fetches[f].progress.Running? && f !in q.released
  }

  /** Everything that a turn has queued has run. */
  predicate Quiet(t: Turns) {
    && Unclean(t.queue) == {}
    && (forall w :: w in t.queue.cache.waiting ==>
          t.queue.cache.waiting[w].fetch in t.queue.cache.fetches && t.queue.cache.fetches[t.queue.cache.waiting[w].fetch].progress.Running?)
    && (forall p :: p in t.selections ==> !t.selections[p].stage.Answered?)
  }

  /** A selection goes on behind the cleanups that were queued when it was answered; a fetch takes
      longer than the turn in which it was started. */
  ghost predicate Allowed(t: Turns, move: Move) {
    match move
    case Look(p, call) => p !in t.selections && call.Call? && !call.ask.force && Orderly(t.queue, call)
    case Pick(p, call) =>
      && p in t.selections && t.selections[p].stage.Answered? && t.selections[p].stage.before <= t.queue.released
      && call.Call? && call.key == t.selections[p].key && call.ask.force && Orderly(t.queue, call)
      && Inv(t.queue.cache) && ReadsCurrent(t.queue.cache, call)
    case Found(p) => p in t.selections && t.selections[p].stage.Answered?
    case Work(step) => !step.Call? && Orderly(t.queue, step) && (step.Settle? && step.outcome.Some? ==> step.fetch !in t.young)
    case NewTurn => Quiet(t)
  }

  /** Those at the stage go on, if what they waited for succeeded; otherwise they throw. */
  function Woken(selections: map<Selection, Selecting>, stage: Stage, succeeded: bool, before: set<Request>): map<Selection, Selecting> {
    map p | p in selections && (selections[p].stage == stage ==> succeeded) ::
      if selections[p].stage == stage then selections[p].(stage := Answered(before)) else selections[p]
  }

  ghost function Stepped(t: Turns, step: Step): Turns
    requires Inv(t.queue.cache) && Orderly(t.queue, step)
  {
    var q := After(t.queue, step);
    Turns(q, t.young + (q.cache.fetches.Keys - t.queue.cache.fetches.Keys), t.selections)
  }

  function LookStage(t: Turns, call: Step): Stage
    requires call.Call?
  {
    if call.waiter in t.queue.cache.waiting then Sharing(call.waiter)
    else if call.fetch in t.queue.cache.fetches then Fetching(call.fetch)
    else Answered(Unclean(t.queue))
  }

  /** The first call is refused when its key has no entry. */
  function Looked(t: Turns, p: Selection, call: Step): Turns
    requires call.Call?
  {
    if call.key !in t.queue.cache.table then t
    else t.(selections := t.selections[p := Selecting(call.key, LookStage(t, call))])
  }

  ghost function Advance(t: Turns, move: Move): Turns
    requires Inv(t.queue.cache) && Allowed(t, move)
  {
    match move
    case Look(p, call) => Looked(Stepped(t, call), p, call)
    case Pick(p, call) => Stepped(t, call).(selections := t.selections - {p})
    case Found(p) => t.(selections := t.selections - {p})
    case NewTurn => t.(young := {})
    case Work(step) =>
      var n := Stepped(t, step);
      match step
      case Release(f) =>
        n.(selections := Woken(t.selections, Fetching(f), t.queue.cache.fetches[f].progress.Succeeded?, Unclean(n.queue)))
      case Resume(w, _) =>
        n.(selections := Woken(t.selections, Sharing(w), t.queue.cache.fetches[t.queue.cache.waiting[w].fetch].progress.Succeeded?, Unclean(n.queue)))
      case _ => n
  }

  // ---------- the invariant ----------

  /** Every fetch that is not cleaned up is the one its entry is marked with. */
  ghost predicate MarkedUntilClean(q: Queue) {
    forall f :: f in q.cache.fetches && f !in q.released ==>
      q.cache.fetches[f].ref in q.cache.entries && q.cache.entries[q.cache.fetches[f].ref].inflight == Some(f)
  }

  /** While a load is running there is no fresh value. */
  ghost predicate LoadsNeeded(s: State) {
    forall f :: f in s.fetches && s.fetches[f].progress.Running? && s.fetches[f].kind.Load? ==>
      && s.fetches[f].ref in s.entries
      && (s.entries[s.fetches[f].ref].value.None? || s.entries[s.fetches[f].ref].expiresAt <= s.clock)
  }

  ghost predicate YoungRun(t: Turns) {
    forall f :: f in t.young ==> f in t.queue.cache.fetches && !t.queue.cache.fetches[f].progress.Succeeded?
  }

  ghost predicate Flows(t: Turns) {
    && Inv(t.queue.cache) && Told(t.queue.cache) && SingleFlight(t.queue.cache)
    && Cleaned(t.queue) && MarkedUntilClean(t.queue) && LoadsNeeded(t.queue.cache) && YoungRun(t)
  }

  /** A load that the entry under the key is marked with was started in this turn, or had ended before. */
  ghost predicate Newly(t: Turns, key: Key, before: set<Request>) {
    var s := t.queue.cache;
    key in s.table && s.table[key] in s.entries && s.entries[s.table[key]].inflight.Some? ==>
      var f := s.entries[s.table[key]].inflight.value;
      f in s.fetches && s.fetches[f].kind.Load? ==> f in t.young || f in before
  }

  /** The fetch is not cleaned up, and its entry is under the key. */
  ghost predicate Placed(q: Queue, key: Key, f: Request) {
    f in q.cache.fetches && f !in q.released && key in q.cache.table && q.cache.table[key] == q.cache.fetches[f].ref
  }

  ghost predicate StageHolds(t: Turns, x: Selecting) {
    match x.stage
    case Sharing(w) =>
      && w in t.queue.cache.waiting
      && (Placed(t.queue, x.key, t.queue.cache.waiting[w].fetch) || (t.queue.cache.waiting[w].fetch in t.queue.released && Newly(t, x.key, {})))
    case Fetching(f) => Placed(t.queue, x.key, f)
    case Answered(before) => Newly(t, x.key, before)
  }

  ghost predicate Paced(t: Turns) {
    Flows(t) && forall p :: p in t.selections ==> StageHolds(t, t.selections[p])
  }

  // ---------- a step of the cache keeps what is not about selections ----------

  /** What a step keeps for the selections. */
  ghost predicate Onward(t: Turns, n: Turns) {
    && (forall key, before :: Newly(t, key, before) ==> Newly(n, key, before))
    && (forall key, f :: Placed(t.queue, key, f) && f !in n.queue.released ==> Placed(n.queue, key, f))
  }

  lemma PlacedStays(t: Turns, step: Step, key: Key, f: Request)
    requires Flows(t) && Orderly(t.queue, step) && Placed(t.queue, key, f) && f !in After(t.queue, step).released
    ensures Placed(After(t.queue, step), key, f)
  {
    MarkedStays(t.queue.cache, step, key);
    StepFixes(t.queue.cache, step);
    hide Inv, Told, SingleFlight, LoadsNeeded, YoungRun, Cleaned, Next;
  }

  // ---------- calls ----------

  /** What a call does, for the purposes below. */
  ghost predicate CallEffect(s: State, n: State, step: Step)
    requires step.Call?
  {
    && CallLeaves(s, n) && CallStarts(s, n, step.fetch) && CallMarks(s, n, step.fetch) && CallValues(s, n, step.newRef, step.fetch)
    && FetchesStay(s, n) && step.fetch !in s.fetches && step.newRef !in s.entries && n.fetches.Keys <= s.fetches.Keys + {step.fetch}
  }

  lemma CallHasEffect(s: State, step: Step)
    requires Inv(s) && step.Call? && Enabled(s, step)
    ensures CallEffect(s, Next(s, step), step)
  {
    CallTraits(s, step.key, step.ask, step.newRef, step.fetch, step.waiter);
    CallMarksOwn(s, step.key, step.ask, step.newRef, step.fetch, step.waiter);
    CallKeepsValues(s, step.key, step.ask, step.newRef, step.fetch, step.waiter);
    StartsAreNew(s, Next(s, step), step.fetch);
    hide Inv, Called, CallLeaves, CallMarks, CallValues, FetchesStay;
  }

  lemma CallMarkedUntilClean(q: Queue, m: Queue, step: Step)
    requires MarkedUntilClean(q) && step.Call? && CallEffect(q.cache, m.cache, step) && m.released == q.released
    ensures MarkedUntilClean(m)
  {
    hide CallMarks, CallValues;
  }

  lemma CallLoadsNeeded(s: State, n: State, step: Step)
    requires LoadsNeeded(s) && step.Call? && CallEffect(s, n, step)
    ensures LoadsNeeded(n)
  {
    hide CallMarks, CallLeaves;
  }

  lemma CallNewly(t: Turns, n: Turns, step: Step, key: Key, before: set<Request>)
    requires Inv(t.queue.cache) && step.Call? && CallEffect(t.queue.cache, n.queue.cache, step) && n.young == t.young + (n.queue.cache.fetches.Keys - t.queue.cache.fetches.Keys)
    requires Newly(t, key, before) && InvMarks(t.queue.cache)
    ensures Newly(n, key, before)
  {
    hide Inv, CallLeaves;
  }

  /** Marks are fetches. */
  ghost predicate InvMarks(s: State) {
    forall r :: r in s.entries && s.entries[r].inflight.Some? ==> s.entries[r].inflight.value in s.fetches
  }

  lemma MarksAreFetches(s: State)
    requires Inv(s)
    ensures InvMarks(s)
  {
    forall r | r in s.entries && s.entries[r].inflight.Some? ensures s.entries[r].inflight.value in s.fetches { assert EntrySound(s, r); }
  }

  lemma CallYoung(t: Turns, n: Turns, step: Step)
    requires YoungRun(t) && step.Call? && CallEffect(t.queue.cache, n.queue.cache, step)
    requires n.young == t.young + (n.queue.cache.fetches.Keys - t.queue.cache.fetches.Keys)
    ensures YoungRun(n)
  {
    hide CallMarks, CallLeaves, CallStarts;
  }

  lemma CallFlows(t: Turns, step: Step)
    requires Flows(t) && step.Call? && Orderly(t.queue, step) && Knowing(t.queue.cache, step)
    ensures Flows(Stepped(t, step)) && Onward(t, Stepped(t, step))
  {
    hide Inv, Told, SingleFlight, Cleaned, MarkedUntilClean, LoadsNeeded, YoungRun, Newly, Placed, CallEffect, Next, Orderly, Knowing, Enabled, After;
    var q, n := t.queue, Stepped(t, step);
    StepAfter(q, step);
    KnowingKeeps(q.cache, step);
    CallHasEffect(q.cache, step);
    CallClean(q, n.queue, step);
    CallMarkedUntilClean(q, n.queue, step);
    CallLoadsNeeded(q.cache, n.queue.cache, step);
    CallYoung(t, n, step);
    MarksAreFetches(q.cache);
    forall key, before | Newly(t, key, before) ensures Newly(n, key, before) { CallNewly(t, n, step, key, before); }
    forall key, f | Placed(q, key, f) && f !in n.queue.released ensures Placed(n.queue, key, f) { PlacedStays(t, step, key, f); }
  }

  lemma CallClean(q: Queue, m: Queue, step: Step)
    requires Cleaned(q) && step.Call? && CallEffect(q.cache, m.cache, step) && m.released == q.released
    ensures Cleaned(m)
  {
    CallCleaned(q, m, step.fetch);
  }

  // ---------- ends of fetches ----------

  lemma EndsKeeps(t: Turns, n: Turns, f: Request)
    requires MarkedUntilClean(t.queue) && LoadsNeeded(t.queue.cache) && YoungRun(t) && SingleFlight(t.queue.cache)
    requires Ends(t.queue.cache, n.queue.cache, f) && n.queue.released == t.queue.released && n.young == t.young
    requires f in t.young ==> !n.queue.cache.fetches[f].progress.Succeeded?
    ensures MarkedUntilClean(n.queue) && LoadsNeeded(n.queue.cache) && YoungRun(n)
  {
  }

  lemma EndsNewly(t: Turns, n: Turns, f: Request, key: Key, before: set<Request>)
    requires Newly(t, key, before) && Ends(t.queue.cache, n.queue.cache, f) && n.young == t.young
    ensures Newly(n, key, before)
  {
  }

  lemma FailureFails(s: State, fetch: Request)
    requires fetch in s.fetches && s.fetches[fetch].ref in s.entries
    ensures !Settled(s, fetch, None).fetches[fetch].progress.Succeeded?
  {
  }

  lemma SettleEnds(s: State, step: Step)
    requires Inv(s) && Told(s) && SingleFlight(s) && step.Settle? && Enabled(s, step)
    ensures Ends(s, Next(s, step), step.fetch) && (step.outcome.None? ==> !Next(s, step).fetches[step.fetch].progress.Succeeded?)
  {
    MarkedIsNewest(s, step.fetch);
    SettledEnds(s, step.fetch, step.outcome);
    FailureFails(s, step.fetch);
    hide Inv, Told, SingleFlight, Settled;
  }

  lemma SettleFlows(t: Turns, step: Step)
    requires Flows(t) && step.Settle? && Orderly(t.queue, step) && (step.outcome.Some? ==> step.fetch !in t.young)
    ensures Flows(Stepped(t, step)) && Onward(t, Stepped(t, step))
  {
    hide Inv, Told, SingleFlight, Cleaned, MarkedUntilClean, LoadsNeeded, YoungRun, Newly, Placed, Next, Orderly, Enabled, After;
    var q, n := t.queue, Stepped(t, step);
    StepAfter(q, step);
    NotCall(q.cache, step);
    KnowingKeeps(q.cache, step);
    SettleEnds(q.cache, step);
    SettledCleaned(q, n.queue, step.fetch);
    assert n.young == t.young;
    EndsKeeps(t, n, step.fetch);
    forall key, before | Newly(t, key, before) ensures Newly(n, key, before) { EndsNewly(t, n, step.fetch, key, before); }
    forall key, f | Placed(q, key, f) && f !in n.queue.released ensures Placed(n.queue, key, f) { PlacedStays(t, step, key, f); }
  }

  lemma NotCall(s: State, step: Step)
    requires Inv(s) && !step.Call?
    ensures Knowing(s, step)
  {
  }

  // ---------- cleanups ----------

  lemma FreesKeeps(t: Turns, n: Turns, f: Request)
    requires MarkedUntilClean(t.queue) && LoadsNeeded(t.queue.cache) && YoungRun(t)
    requires Frees(t.queue, n.queue, f) && n.young == t.young
    ensures MarkedUntilClean(n.queue) && LoadsNeeded(n.queue.cache) && YoungRun(n)
  {
  }

  lemma FreesNewly(t: Turns, n: Turns, f: Request, key: Key, before: set<Request>)
    requires Newly(t, key, before) && Frees(t.queue, n.queue, f) && n.young == t.young
    ensures Newly(n, key, before)
  {
  }

  lemma ReleaseFlows(t: Turns, step: Step)
    requires Flows(t) && step.Release? && Orderly(t.queue, step)
    ensures Flows(Stepped(t, step)) && Onward(t, Stepped(t, step)) && Frees(t.queue, Stepped(t, step).queue, step.fetch)
  {
    hide Inv, Told, SingleFlight, Cleaned, MarkedUntilClean, LoadsNeeded, YoungRun, Newly, Placed, Next, Orderly, Enabled, After, Frees;
    var q, n := t.queue, Stepped(t, step);
    StepAfter(q, step);
    NotCall(q.cache, step);
    KnowingKeeps(q.cache, step);
    ReleaseFrees(q, step);
    ReleaseCleans(q, step);
    FreesFetches(q, n.queue, step.fetch);
    assert n.young == t.young;
    FreesKeeps(t, n, step.fetch);
    forall key, before | Newly(t, key, before) ensures Newly(n, key, before) { FreesNewly(t, n, step.fetch, key, before); }
    forall key, f | Placed(q, key, f) && f !in n.queue.released ensures Placed(n.queue, key, f) { PlacedStays(t, step, key, f); }
  }

  lemma FreesFetches(q: Queue, m: Queue, f: Request)
    requires Frees(q, m, f)
    ensures m.cache.fetches == q.cache.fetches && m.cache.waiting == q.cache.waiting
  {
  }

  // ---------- callers that go on, and time ----------

  lemma QuietKeeps(t: Turns, n: Turns, w: Waiter)
    requires MarkedUntilClean(t.queue) && LoadsNeeded(t.queue.cache) && YoungRun(t)
    requires GoesOnQuietly(t.queue.cache, n.queue.cache, w) && n.queue.released == t.queue.released && n.young == t.young
    ensures MarkedUntilClean(n.queue) && LoadsNeeded(n.queue.cache) && YoungRun(n)
  {
    hide SharedCooldowns;
  }

  lemma QuietNewly(t: Turns, n: Turns, w: Waiter, key: Key, before: set<Request>)
    requires Newly(t, key, before) && GoesOnQuietly(t.queue.cache, n.queue.cache, w) && n.young == t.young
    ensures Newly(n, key, before)
  {
    hide SharedCooldowns;
  }

  /** In such runs nobody starts a fetch after a shared one. */
  lemma ResumeIsQuiet(s: State, step: Step)
    requires Inv(s) && Told(s) && step.Resume? && Enabled(s, step)
    ensures GoesOnQuietly(s, Next(s, step), step.waiter)
  {
    hide Inv, Told, Next, StartsNow;
    ResumeStartsNothing(s, step);
    ResumeEffect(s, step);
    if StartsNow(s, step.waiter) { StartingMarks(s, Next(s, step), step.waiter, step.newFetch); }
  }

  lemma StartingMarks(s: State, n: State, w: Waiter, newFetch: Request)
    requires GoesOnStarting(s, n, w, newFetch)
    ensures !MarksKept(s, n)
  {
    assert newFetch in n.fetches;
  }

  lemma ResumeFlows(t: Turns, step: Step)
    requires Flows(t) && step.Resume? && Orderly(t.queue, step)
    ensures Flows(Stepped(t, step)) && Onward(t, Stepped(t, step)) && GoesOnQuietly(t.queue.cache, Stepped(t, step).queue.cache, step.waiter)
  {
    hide Inv, Told, SingleFlight, Cleaned, MarkedUntilClean, LoadsNeeded, YoungRun, Newly, Placed, Next, Orderly, Enabled, After, GoesOnQuietly, GoesOnStarting;
    var q, n := t.queue, Stepped(t, step);
    StepAfter(q, step);
    NotCall(q.cache, step);
    KnowingKeeps(q.cache, step);
    ResumeIsQuiet(q.cache, step);
    ResumeCleaned(q, n.queue, step.waiter, step.newFetch);
    QuietFetches(q.cache, n.queue.cache, step.waiter);
    assert n.young == t.young;
    QuietKeeps(t, n, step.waiter);
    forall key, before | Newly(t, key, before) ensures Newly(n, key, before) { QuietNewly(t, n, step.waiter, key, before); }
    forall key, f | Placed(q, key, f) && f !in n.queue.released ensures Placed(n.queue, key, f) { PlacedStays(t, step, key, f); }
  }

  lemma QuietFetches(s: State, n: State, w: Waiter)
    requires GoesOnQuietly(s, n, w)
    ensures n.fetches == s.fetches && w in s.waiting && n.waiting == s.waiting - {w}
  {
  }

  lemma TickFlows(t: Turns, step: Step)
    requires Flows(t) && step.Tick? && Orderly(t.queue, step)
    ensures Flows(Stepped(t, step)) && Onward(t, Stepped(t, step))
  {
    hide Inv, Told, SingleFlight, Cleaned, MarkedUntilClean, LoadsNeeded, YoungRun, Newly, Placed, Orderly, Enabled;
    StepAfter(t.queue, step);
    TickIsEnabled(t.queue, step);
    NotCall(t.queue.cache, step);
    KnowingKeeps(t.queue.cache, step);
    assert Stepped(t, step) == t.(queue := t.queue.(cache := t.queue.cache.(clock := step.to)));
    TickKeeps(t, step.to);
  }

  lemma TickIsEnabled(q: Queue, step: Step)
    requires Inv(q.cache) && step.Tick? && Orderly(q, step)
    ensures q.cache.clock <= step.to && After(q, step) == q.(cache := q.cache.(clock := step.to))
  {
    hide Inv;
  }

  lemma TickKeeps(t: Turns, to: Instant)
    requires t.queue.cache.clock <= to
    ensures var n := t.(queue := t.queue.(cache := t.queue.cache.(clock := to)));
            && (Cleaned(t.queue) ==> Cleaned(n.queue)) && (MarkedUntilClean(t.queue) ==> MarkedUntilClean(n.queue))
            && (LoadsNeeded(t.queue.cache) ==> LoadsNeeded(n.queue.cache)) && (YoungRun(t) ==> YoungRun(n)) && Onward(t, n)
  {
  }

  // ---------- selections ----------

  lemma NewlyMore(t: Turns, key: Key, before: set<Request>, more: set<Request>)
    requires Newly(t, key, before) && before <= more
    ensures Newly(t, key, more)
  {
  }

  /** A selection that a step does not concern stays where it is. */
  lemma StageStays(t: Turns, n: Turns, x: Selecting)
    requires StageHolds(t, x) && Onward(t, n) && t.queue.released <= n.queue.released
    requires x.stage.Sharing? ==> x.stage.waiter in n.queue.cache.waiting && n.queue.cache.waiting[x.stage.waiter] == t.queue.cache.waiting[x.stage.waiter]
    requires x.stage.Sharing? ==> (t.queue.cache.waiting[x.stage.waiter].fetch in n.queue.released ==> t.queue.cache.waiting[x.stage.waiter].fetch in t.queue.released)
    requires x.stage.Fetching? ==> x.stage.fetch !in n.queue.released
    ensures StageHolds(n, x)
  {
    hide Newly, Placed;
    if x.stage.Sharing? && Placed(t.queue, x.key, t.queue.cache.waiting[x.stage.waiter].fetch) { PlacedOpen(t.queue, x.key, t.queue.cache.waiting[x.stage.waiter].fetch); }
  }

  lemma PlacedOpen(q: Queue, key: Key, f: Request)
    requires Placed(q, key, f)
    ensures f !in q.released
  {
  }

  /** After its cleanup a fetch that was placed under a key leaves no mark there. */
  lemma FreedIsNewly(t: Turns, n: Turns, key: Key, f: Request)
    requires Flows(t) && Placed(t.queue, key, f) && Frees(t.queue, n.queue, f)
    ensures Newly(n, key, {})
  {
    hide Inv, Told, SingleFlight, Cleaned, LoadsNeeded, YoungRun;
  }

  lemma ReleaseStage(t: Turns, n: Turns, f: Request, x: Selecting, before: set<Request>)
    requires Flows(t) && StageHolds(t, x) && Onward(t, n) && Frees(t.queue, n.queue, f)
    ensures x.stage != Fetching(f) ==> StageHolds(n, x)
    ensures x.stage == Fetching(f) ==> StageHolds(n, x.(stage := Answered(before)))
  {
    hide Newly, Placed, Flows;
    FreesQueue(t.queue, n.queue, f);
    if x.stage == Fetching(f) {
      FreedIsNewly(t, n, x.key, f);
      NewlyMore(n, x.key, {}, before);
    } else if x.stage.Sharing? && t.queue.cache.waiting[x.stage.waiter].fetch == f && Placed(t.queue, x.key, f) {
      FreedIsNewly(t, n, x.key, f);
    } else {
      if x.stage.Fetching? { PlacedOpen(t.queue, x.key, x.stage.fetch); }
      StageStays(t, n, x);
    }
  }

  lemma FreesQueue(q: Queue, m: Queue, f: Request)
    requires Frees(q, m, f)
    ensures m.released == q.released + {f} && m.cache.waiting == q.cache.waiting && f !in q.released
  {
  }

  lemma ResumeStage(t: Turns, n: Turns, w: Waiter, x: Selecting, before: set<Request>)
    requires StageHolds(t, x) && Onward(t, n) && n.queue.released == t.queue.released
    requires w in t.queue.cache.waiting && t.queue.cache.waiting[w].fetch in t.queue.released && n.queue.cache.waiting == t.queue.cache.waiting - {w}
    ensures x.stage != Sharing(w) ==> StageHolds(n, x)
    ensures x.stage == Sharing(w) ==> StageHolds(n, x.(stage := Answered(before)))
  {
    hide Newly;
    if x.stage == Sharing(w) {
      assert Newly(t, x.key, {});
      NewlyMore(n, x.key, {}, before);
    } else {
      if x.stage.Fetching? { PlacedOpen(t.queue, x.key, x.stage.fetch); }
      StageStays(t, n, x);
    }
  }

  /** A step that leaves those who wait alone, and cleans nothing up. */
  lemma StageKept(t: Turns, n: Turns, x: Selecting)
    requires StageHolds(t, x) && Onward(t, n) && n.queue.released == t.queue.released
    requires forall w :: w in t.queue.cache.waiting ==> w in n.queue.cache.waiting && n.queue.cache.waiting[w] == t.queue.cache.waiting[w]
    ensures StageHolds(n, x)
  {
    hide Newly;
    if x.stage.Fetching? { PlacedOpen(t.queue, x.key, x.stage.fetch); }
    StageStays(t, n, x);
  }

  lemma CallFacts(q: Queue, call: Step)
    requires Inv(q.cache) && call.Call? && Orderly(q, call)
    ensures var n := After(q, call).cache;
            && Backed(q.cache.table, q.cache.entries) && CallServes(n, call.key, call.ask, call.fetch, call.waiter)
            && CallJoins(q.cache, n, call.key, call.ask, call.waiter) && Inv(n)
            && call.waiter !in q.cache.waiting && call.fetch !in q.cache.fetches && After(q, call).released == q.released
  {
    StepAfter(q, call);
    CallIsServed(q.cache, call.key, call.ask, call.newRef, call.fetch, call.waiter);
    CallWaits(q.cache, call.key, call.ask, call.newRef, call.fetch, call.waiter);
    hide Inv, CallServes, CallJoins, Called;
  }

  /** Where the first call of a selection leaves it. */
  lemma LookedHolds(t: Turns, call: Step)
    requires Flows(t) && call.Call? && !call.ask.force && Orderly(t.queue, call) && Flows(Stepped(t, call))
    requires call.key in Stepped(t, call).queue.cache.table
    ensures StageHolds(Stepped(t, call), Selecting(call.key, LookStage(Stepped(t, call), call)))
  {
    hide Inv, Told, SingleFlight, LoadsNeeded, YoungRun, MarkedUntilClean, Cleaned, Orderly, After, CallServes, CallJoins, Newly, Placed, Backed;
    CallFacts(t.queue, call);
    var n := Stepped(t, call);
    if call.waiter in n.queue.cache.waiting {
      SharingPlaced(t.queue, n.queue, call);
    } else if call.fetch in n.queue.cache.fetches {
      FetchingPlaced(t.queue, n.queue, call);
    } else {
      CachedNewly(n, call);
    }
  }

  lemma SharingPlaced(q: Queue, m: Queue, call: Step)
    requires call.Call? && Backed(q.cache.table, q.cache.entries) && CallJoins(q.cache, m.cache, call.key, call.ask, call.waiter) && call.waiter !in q.cache.waiting
    requires Cleaned(q) && m.released == q.released && Inv(m.cache) && call.waiter in m.cache.waiting
    requires CallServes(m.cache, call.key, call.ask, call.fetch, call.waiter)
    ensures Placed(m, call.key, m.cache.waiting[call.waiter].fetch)
  {
    WaiterIsBacked(m.cache, call.waiter);
    assert m.cache.fetches[m.cache.waiting[call.waiter].fetch].ref == m.cache.waiting[call.waiter].ref;
    hide Inv, JoinsLoad;
  }

  lemma FetchingPlaced(q: Queue, m: Queue, call: Step)
    requires call.Call? && Cleaned(q) && m.released == q.released && call.fetch !in q.cache.fetches && call.fetch in m.cache.fetches
    requires CallServes(m.cache, call.key, call.ask, call.fetch, call.waiter)
    ensures Placed(m, call.key, call.fetch)
  {
  }

  lemma CachedNewly(n: Turns, call: Step)
    requires Flows(n) && call.Call? && !call.ask.force && CallServes(n.queue.cache, call.key, call.ask, call.fetch, call.waiter)
    requires call.key in n.queue.cache.table && call.waiter !in n.queue.cache.waiting && call.fetch !in n.queue.cache.fetches
    ensures Newly(n, call.key, Unclean(n.queue))
  {
    var s := n.queue.cache;
    var ref := s.table[call.key];
    assert EntrySound(s, ref);
    hide Inv, Told, SingleFlight, YoungRun, MarkedUntilClean;
  }

  // ---------- every move ----------

  lemma LookPaced(t: Turns, move: Move)
    requires Paced(t) && move.Look? && Allowed(t, move)
    ensures Paced(Advance(t, move)) && UsedStays(t.queue.cache, Advance(t, move).queue.cache)
  {
    hide Flows, StageHolds, Onward, Orderly, After, Inv, UsedStays;
    FlowsFly(t);
    UnforcedKnows(t.queue, move.call);
    CallFlows(t, move.call);
    CallStays(t, move.call);
    var n := Stepped(t, move.call);
    forall p | p in t.selections ensures StageHolds(n, t.selections[p]) { StageKept(t, n, t.selections[p]); }
    if move.call.key in n.queue.cache.table { LookedHolds(t, move.call); }
    forall p | p in Advance(t, move).selections ensures StageHolds(Advance(t, move), Advance(t, move).selections[p]) {
      SameStage(n, Advance(t, move), Advance(t, move).selections[p]);
    }
    SameFlows(n, Advance(t, move));
  }

  lemma FlowsFly(t: Turns)
    requires Flows(t)
    ensures Inv(t.queue.cache) && Told(t.queue.cache) && SingleFlight(t.queue.cache)
  {
  }

  lemma UnforcedKnows(q: Queue, call: Step)
    requires Inv(q.cache) && call.Call? && !call.ask.force
    ensures Knowing(q.cache, call)
  {
  }

  /** What a call leaves alone of the queue. */
  lemma CallStays(t: Turns, call: Step)
    requires Flows(t) && call.Call? && Orderly(t.queue, call)
    ensures var n := Stepped(t, call);
            && n.queue.released == t.queue.released
            && (forall w :: w in t.queue.cache.waiting ==> w in n.queue.cache.waiting && n.queue.cache.waiting[w] == t.queue.cache.waiting[w])
            && UsedStays(t.queue.cache, n.queue.cache)
  {
    hide Inv, Flows, After, Orderly, Enabled, CallJoins, CallServes, Next, SingleFlight, UsedStays;
    FlowsFly(t);
    CallFacts(t.queue, call);
    StepAfter(t.queue, call);
    UsedStaysOneStep(t.queue.cache, call);
    JoinsKeepWaiting(t.queue.cache, Stepped(t, call).queue.cache, call);
  }

  lemma JoinsKeepWaiting(s: State, n: State, call: Step)
    requires call.Call? && Backed(s.table, s.entries) && CallJoins(s, n, call.key, call.ask, call.waiter) && call.waiter !in s.waiting
    ensures forall w :: w in s.waiting ==> w in n.waiting && n.waiting[w] == s.waiting[w]
  {
    hide CoolingDown;
  }

  /** Selections are not what these speak of. */
  lemma SameStage(t: Turns, n: Turns, x: Selecting)
    requires StageHolds(t, x) && n.queue == t.queue && n.young == t.young
    ensures StageHolds(n, x)
  {
  }

  lemma SameFlows(t: Turns, n: Turns)
    requires Flows(t) && n.queue == t.queue && n.young == t.young
    ensures Flows(n)
  {
  }

  /** A load that the second call would join is still running, so that what it has read is older. */
  lemma PickKnows(t: Turns, move: Move)
    requires Paced(t) && move.Pick? && Allowed(t, move)
    ensures Inv(t.queue.cache) && Knowing(t.queue.cache, move.call)
  {
    var s, call := t.queue.cache, move.call;
    InvBacked(s);
    assert StageHolds(t, t.selections[move.p]);
    hide Inv, SingleFlight, LoadsNeeded, MarkedUntilClean, Orderly, CoolingDown;
    if JoinsLoad(s, call.key, call.ask) {
      JoinMarkIs(s, call);
      ReadingIsKnowing(s, call);
    }
  }

  lemma JoinMarkIs(s: State, call: Step)
    requires Inv(s) && Stamped(s) && call.Call? && JoinsLoad(s, call.key, call.ask)
    ensures call.key in s.table && s.table[call.key] in s.entries && s.entries[s.table[call.key]].inflight == Some(Marked(s, call.key))
    ensures Marked(s, call.key) in s.fetches && s.fetches[Marked(s, call.key)].kind.Load?
  {
    MarkedIsFetch(s, call.key);
    assert MarkIsLast(s, s.table[call.key]);
  }

  lemma PickPaced(t: Turns, move: Move)
    requires Paced(t) && move.Pick? && Allowed(t, move)
    ensures Paced(Advance(t, move)) && UsedStays(t.queue.cache, Advance(t, move).queue.cache)
  {
    hide Flows, StageHolds, Onward, Orderly, After, Inv, UsedStays;
    PickKnows(t, move);
    CallFlows(t, move.call);
    CallStays(t, move.call);
    var n, m := Stepped(t, move.call), Advance(t, move);
    forall p | p in m.selections ensures StageHolds(m, m.selections[p]) {
      StageKept(t, n, t.selections[p]);
      SameStage(n, m, m.selections[p]);
    }
    SameFlows(n, m);
  }

  lemma FoundPaced(t: Turns, move: Move)
    requires Paced(t) && move.Found? && Allowed(t, move) && Inv(t.queue.cache)
    ensures Paced(Advance(t, move))
  {
    hide Flows, StageHolds, Inv;
    var m := Advance(t, move);
    forall p | p in m.selections ensures StageHolds(m, m.selections[p]) { SameStage(t, m, m.selections[p]); }
    SameFlows(t, m);
  }

  lemma TurnPaced(t: Turns, move: Move)
    requires Paced(t) && move.NewTurn? && Allowed(t, move) && Inv(t.queue.cache)
    ensures Paced(Advance(t, move))
  {
    var m := Advance(t, move);
    forall p | p in m.selections ensures StageHolds(m, m.selections[p]) { QuietStage(t, t.selections[p]); }
    hide Inv, Told, SingleFlight, LoadsNeeded, MarkedUntilClean, Cleaned, StageHolds;
  }

  lemma QuietStage(t: Turns, x: Selecting)
    requires Flows(t) && StageHolds(t, x) && Quiet(t) && !x.stage.Answered?
    ensures StageHolds(t.(young := {}), x)
  {
    hide Inv, Told, SingleFlight, LoadsNeeded, MarkedUntilClean, Newly;
  }

  lemma ReleasePaced(t: Turns, step: Step)
    requires Paced(t) && step.Release? && Inv(t.queue.cache) && Allowed(t, Work(step))
    ensures Paced(Advance(t, Work(step)))
  {
    hide Flows, StageHolds, Onward, Orderly, After, Inv, Frees, Unclean;
    ReleaseOrderly(t, step);
    ReleaseFlows(t, step);
    var n, m := Stepped(t, step), Advance(t, Work(step));
    forall p | p in m.selections ensures StageHolds(m, m.selections[p]) {
      ReleaseStage(t, n, step.fetch, t.selections[p], Unclean(n.queue));
      SameStage(n, m, m.selections[p]);
    }
    SameFlows(n, m);
  }

  lemma ReleaseOrderly(t: Turns, step: Step)
    requires !step.Call? && Inv(t.queue.cache) && Allowed(t, Work(step))
    ensures Orderly(t.queue, step)
    ensures step.Release? ==> step.fetch in t.queue.cache.fetches
    ensures step.Resume? ==> step.waiter in t.queue.cache.waiting && t.queue.cache.waiting[step.waiter].fetch in t.queue.cache.fetches
                             && t.queue.cache.waiting[step.waiter].fetch in t.queue.released
  {
    hide Inv;
  }

  lemma ResumePaced(t: Turns, step: Step)
    requires Paced(t) && step.Resume? && Inv(t.queue.cache) && Allowed(t, Work(step))
    ensures Paced(Advance(t, Work(step)))
  {
    hide Flows, StageHolds, Onward, Orderly, After, Inv, GoesOnQuietly, Unclean;
    ReleaseOrderly(t, step);
    ResumeFlows(t, step);
    StepAfter(t.queue, step);
    var n, m := Stepped(t, step), Advance(t, Work(step));
    QuietFetches(t.queue.cache, n.queue.cache, step.waiter);
    forall p | p in m.selections ensures StageHolds(m, m.selections[p]) {
      ResumeStage(t, n, step.waiter, t.selections[p], Unclean(n.queue));
      SameStage(n, m, m.selections[p]);
    }
    SameFlows(n, m);
  }

  lemma OtherPaced(t: Turns, step: Step)
    requires Paced(t) && (step.Settle? || step.Tick?) && Inv(t.queue.cache) && Allowed(t, Work(step))
    ensures Paced(Advance(t, Work(step)))
  {
    hide Flows, StageHolds, Onward, Orderly, After, Inv;
    ReleaseOrderly(t, step);
    if step.Settle? { SettleFlows(t, step); } else { TickFlows(t, step); }
    StepAfter(t.queue, step);
    WaitingSame(t.queue.cache, step);
    var n := Stepped(t, step);
    forall p | p in t.selections ensures StageHolds(n, t.selections[p]) { StageKept(t, n, t.selections[p]); }
  }

  lemma WaitingSame(s: State, step: Step)
    requires Inv(s) && Enabled(s, step) && (step.Settle? || step.Tick?)
    ensures Next(s, step).waiting == s.waiting
  {
    if step.Settle? { FetchIsBacked(s, step.fetch); }
    hide Inv, Remembered;
  }

  /** Every move keeps single flight, whatever the selections do. */
  lemma MovePaced(t: Turns, move: Move)
    requires Paced(t) && Allowed(t, move)
    ensures Inv(t.queue.cache) && Paced(Advance(t, move)) && UsedStays(t.queue.cache, Advance(t, move).queue.cache)
  {
    hide Flows, StageHolds, Inv, UsedStays, Orderly;
    FlowsFly(t);
    match move
    case Look(_, _) => LookPaced(t, move);
    case Pick(_, _) => PickPaced(t, move);
    case Found(_) =>
      FoundPaced(t, move);
      UsedStaysSame(t.queue.cache);
    case NewTurn =>
      TurnPaced(t, move);
      UsedStaysSame(t.queue.cache);
    case Work(step) =>
      WorkPaced(t, step);
  }

  lemma WorkPaced(t: Turns, step: Step)
    requires Paced(t) && Inv(t.queue.cache) && Allowed(t, Work(step))
    ensures Paced(Advance(t, Work(step))) && UsedStays(t.queue.cache, Advance(t, Work(step)).queue.cache)
  {
    hide Flows, StageHolds, Inv, UsedStays, Orderly, After;
    FlowsFly(t);
    ReleaseOrderly(t, step);
    StepAfter(t.queue, step);
    UsedStaysOneStep(t.queue.cache, step);
    if step.Release? { ReleasePaced(t, step); }
    else if step.Resume? { ResumePaced(t, step); }
    else { OtherPaced(t, step); }
  }

  lemma UsedStaysSame(s: State)
    ensures UsedStays(s, s)
  {
  }

  // ---------- runs ----------

  ghost predicate TurnRun(t: Turns, moves: seq<Move>)
    decreases |moves|
  {
    Inv(t.queue.cache) && (moves == [] || (Allowed(t, moves[0]) && TurnRun(Advance(t, moves[0]), moves[1..])))
  }

  ghost function Reached(t: Turns, moves: seq<Move>): Turns
    requires TurnRun(t, moves)
    decreases |moves|
  {
    if moves == [] then t else Reached(Advance(t, moves[0]), moves[1..])
  }

  lemma StartPaced(s: State)
    requires Initial(s)
    ensures Paced(Turns(Queue(s, {}, {}), {}, map[]))
  {
  }

  /** In every run of selections, however they interleave with each other, with time and with the ends
      of fetches: every fetch under way is the one its entry is marked with, and no entry with a fetch
      under way is evicted. */
  lemma {:induction false} SelectionsKeepSingleFlight(t: Turns, moves: seq<Move>, i: nat)
    requires Paced(t) && TurnRun(t, moves) && i < |moves|
    ensures TurnRun(t, moves[..i]) && TurnRun(t, moves[..i + 1])
    ensures SingleFlight(Reached(t, moves[..i]).queue.cache) && SingleFlight(Reached(t, moves[..i + 1]).queue.cache)
    ensures UsedStays(Reached(t, moves[..i]).queue.cache, Reached(t, moves[..i + 1]).queue.cache)
    decreases |moves|
  {
    hide Advance, Inv, Allowed, Paced, UsedStays, SingleFlight;
    PacedFlies(t);
    MovePaced(t, moves[0]);
    var n := Advance(t, moves[0]);
    PacedFlies(n);
    if i == 0 {
      assert moves[..0] == [] && moves[..1] == [moves[0]] && [moves[0]][1..] == [];
      assert TurnRun(n, []);
    } else {
      SelectionsKeepSingleFlight(n, moves[1..], i - 1);
      assert moves[..i][1..] == moves[1..][..i - 1] && moves[..i + 1][1..] == moves[1..][..i];
    }
  }

  lemma PacedFlies(t: Turns)
    requires Paced(t)
    ensures Inv(t.queue.cache) && SingleFlight(t.queue.cache)
  {
  }
}
