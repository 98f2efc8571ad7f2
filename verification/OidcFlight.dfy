/** Which fetches of the Microsoft cache can be under way together, and what that means for its
    entries (src/auth-runtime.ts).  A caller that forces a refresh and joins a load says which
    generation it has seen; whether that is older than the load decides everything here. */
module OidcFlight {

  import opened OidcCache
  import opened OidcStamps

  // ---------- callers that know what they join ----------

  /** A caller that joins a load has seen an older generation than the one it waits for. */
  ghost predicate Knowing(s: State, step: Step)
    requires Inv(s)
  {
    step.Call? && JoinsLoad(s, step.key, step.ask) ==>
      Marked(s, step.key) in s.fetches && step.ask.observed.Some? && step.ask.observed.value < s.fetches[Marked(s, step.key)].generation
  }

  ghost predicate Informed(s: State, w: Waiting) {
    w.ask.force && w.kind.Load? ==> w.fetch in s.fetches && w.ask.observed.Some? && w.ask.observed.value < s.fetches[w.fetch].generation
  }

  /** What runs of knowing callers keep. */
  ghost predicate Told(s: State) {
    Stamped(s) && forall w :: w in s.waiting ==> Informed(s, s.waiting[w])
  }

  /** What Informed speaks of is fixed when a fetch starts. */
  lemma InformedStays(s: State, n: State)
    requires FetchesFixed(s, n)
    ensures forall w :: Informed(s, w) ==> Informed(n, w)
  {
  }

  lemma CallInforms(s: State, step: Step)
    requires Inv(s) && Told(s) && step.Call? && Enabled(s, step) && Knowing(s, step)
    ensures forall w :: w in Next(s, step).waiting ==> Informed(Next(s, step), Next(s, step).waiting[w])
  {
    CallWaits(s, step.key, step.ask, step.newRef, step.fetch, step.waiter);
    StepFixes(s, step);
    InformedStays(s, Next(s, step));
    hide Inv, Called, CoolingDown, Stamped;
  }

  lemma StepInforms(s: State, step: Step)
    requires Inv(s) && Told(s) && Enabled(s, step) && Knowing(s, step)
    ensures forall w :: w in Next(s, step).waiting ==> Informed(Next(s, step), Next(s, step).waiting[w])
  {
    if step.Call? {
      CallInforms(s, step);
    } else {
      StepFixes(s, step);
      InformedStays(s, Next(s, step));
      hide Inv, Next, Enabled, Stamped, Informed, Knowing;
    }
  }

  /** A knowing caller that goes on finds the generation moved, and starts nothing. */
  lemma ResumeStartsNothing(s: State, step: Step)
    requires Inv(s) && Told(s) && step.Resume? && Enabled(s, step)
    ensures MarksKept(s, Next(s, step))
  {
    hide Inv, Told, Resumed, Moved, CoolingDown, SharedCooldowns;
    WaiterIsBacked(s, step.waiter);
    WaiterMoved(s, step.waiter);
    MarksSame(s);
    var w := s.waiting[step.waiter];
    if s.fetches[w.fetch].progress.Succeeded? {
      ResumedIs(s.(waiting := s.waiting - {step.waiter}), w, s.fetches[w.fetch].progress.shared, step.newFetch);
    }
  }

  lemma WaiterMoved(s: State, waiter: Waiter)
    requires Inv(s) && Told(s) && waiter in s.waiting
    ensures var w := s.waiting[waiter];
            && w.ref in s.entries && w.fetch in s.fetches
            && (w.ask.force && w.kind.Load? && s.fetches[w.fetch].progress.Succeeded? ==> Moved(s.entries[w.ref], w.ask))
  {
    WaiterIsBacked(s, waiter);
    var w := s.waiting[waiter];
    assert Informed(s, w) && Counted(s, w.fetch) && s.fetches[w.fetch].ref == w.ref;
    hide EntrySound, FetchSound;
  }

  lemma KnowingFlies(s: State, step: Step)
    requires Inv(s) && Told(s) && SingleFlight(s) && Enabled(s, step)
    ensures SingleFlight(Next(s, step))
  {
    hide Inv, Called, Told, Settled, Resumed, SharedCooldowns;
    match step
    case Call(key, ask, newRef, fetch, waiter) =>
      InvBacked(s);
      CallTraits(s, key, ask, newRef, fetch, waiter);
      CallKeepsSingleFlight(s, Next(s, step), fetch);
    case Resume(waiter, newFetch) => ResumeStartsNothing(s, step);
    case Settle(fetch, _) => SettleKeepsSingleFlight(s, step);
    case Release(fetch) => FetchIsBacked(s, fetch);
    case Tick(to) =>
  }

  /** A step of knowing callers keeps single flight. */
  lemma KnowingKeeps(s: State, step: Step)
    requires Inv(s) && Told(s) && SingleFlight(s) && Enabled(s, step) && Knowing(s, step)
    ensures Told(Next(s, step)) && SingleFlight(Next(s, step))
  {
    StampedKeeps(s, step);
    StepInforms(s, step);
    KnowingFlies(s, step);
    hide Inv, Next, Stamped, Informed, SingleFlight, Knowing, Enabled;
  }

  ghost predicate KnowingRun(s: State, steps: seq<Step>)
    requires Runs(s, steps)
    decreases |steps|
  {
    steps == [] || (Knowing(s, steps[0]) && KnowingRun(Next(s, steps[0]), steps[1..]))
  }

  /** While every caller that joins a load knows what it joins: every fetch under way is the one
      its entry is marked with, and no entry with a fetch under way is evicted. */
  lemma {:induction false} FetchedEntriesStay(s: State, steps: seq<Step>, i: nat)
    requires Runs(s, steps) && Told(s) && SingleFlight(s) && KnowingRun(s, steps) && i < |steps|
    ensures Runs(s, steps[..i]) && Runs(s, steps[..i + 1])
    ensures SingleFlight(Final(s, steps[..i])) && SingleFlight(Final(s, steps[..i + 1]))
    ensures UsedStays(Final(s, steps[..i]), Final(s, steps[..i + 1]))
    decreases |steps|
  {
    hide Next, Inv, Enabled, Knowing, Told, SingleFlight, UsedStays;
    KnowingKeeps(s, steps[0]);
    var n := Next(s, steps[0]);
    if i == 0 {
      assert steps[..0] == [] && steps[..1] == [steps[0]];
      RunExtends(s, steps[0]);
      UsedStaysOneStep(s, steps[0]);
    } else {
      FetchedEntriesStay(n, steps[1..], i - 1);
      assert steps[..i][1..] == steps[1..][..i - 1] && steps[..i + 1][1..] == steps[1..][..i];
    }
  }

  lemma InitialTold(s: State)
    requires Initial(s)
    ensures Told(s) && SingleFlight(s)
  {
  }

  // ---------- who knows ----------

  predicate Plain(step: Step) { step.Call? ==> !step.ask.force }

  /** The discovery cache never forces a refresh, so its runs meet the condition. */
  lemma {:induction false} UnforcedRunsKnow(s: State, steps: seq<Step>)
    requires Runs(s, steps) && forall i :: 0 <= i < |steps| ==> Plain(steps[i])
    ensures KnowingRun(s, steps)
    decreases |steps|
  {
    if steps != [] {
      assert Plain(steps[0]);
      forall i | 0 <= i < |steps[1..]| ensures Plain(steps[1..][i]) { assert steps[1..][i] == steps[i + 1]; }
      UnforcedRunsKnow(Next(s, steps[0]), steps[1..]);
    }
  }

  /** selectMicrosoftJwk passes the generation that it has just read from the cache, or none when
      there is no entry. */
  ghost predicate ReadsCurrent(s: State, step: Step)
    requires Inv(s)
  {
    step.Call? && step.ask.force ==>
      step.ask.observed == if step.key in s.table then Some(s.entries[s.table[step.key]].generation) else None
  }

  /** Reading the current generation makes a joining caller a knowing one exactly as long as the
      load that it joins has not succeeded; it then waits only for the cleanup behind the load. */
  lemma ReadingIsKnowing(s: State, step: Step)
    requires Inv(s) && Told(s) && step.Call? && ReadsCurrent(s, step) && JoinsLoad(s, step.key, step.ask)
    ensures Marked(s, step.key) in s.fetches
    ensures Knowing(s, step) <==> !s.fetches[Marked(s, step.key)].progress.Succeeded?
  {
    var ref := s.table[step.key];
    MarkedIsFetch(s, step.key);
    assert EntrySound(s, ref) && FetchSound(s, Marked(s, step.key)) && MarkIsLast(s, ref) && Counted(s, Marked(s, step.key));
  }
}
