/** How long the Microsoft key cache answers without fetching (src/auth-runtime.ts): a reply is fresh
    for five minutes, and a key id that a refresh did not bring is not asked for again for ten seconds. */
module OidcCooldown {

  import opened OidcCache
  import opened OidcStamps

  // ---------- what remembering leaves ----------

  /** The key id rests until then, and at most so many cooldowns are as new. */
  ghost predicate Rests(e: Entry, kid: Kid, until: Instant, newest: nat) {
    exists i :: 0 <= i < |e.cooldowns| && |e.cooldowns| - i <= newest && e.cooldowns[i] == Cooldown(kid, until)
  }

  /** It does not rest any longer. */
  ghost predicate RestsNoLonger(e: Entry, kid: Kid, until: Instant) {
    forall i :: 0 <= i < |e.cooldowns| && e.cooldowns[i].kid == kid ==> e.cooldowns[i].until <= until
  }

  lemma {:induction false} LiveKeeps(cooldowns: seq<Cooldown>, other: Kid, at: Instant, i: nat) returns (j: nat)
    requires i < |cooldowns| && cooldowns[i].until > at && cooldowns[i].kid != other
    ensures j < |LiveCooldowns(cooldowns, other, at)| && LiveCooldowns(cooldowns, other, at)[j] == cooldowns[i]
    ensures |LiveCooldowns(cooldowns, other, at)| - j <= |cooldowns| - i
  {
    if i == 0 {
      j := 0;
      CooldownsBounded(cooldowns, other, at);
    } else {
      j := LiveKeeps(cooldowns[1..], other, at, i - 1);
      if !(cooldowns[0].until <= at || cooldowns[0].kid == other) { j := j + 1; }
    }
  }

  lemma {:induction false} LiveIsOld(cooldowns: seq<Cooldown>, other: Kid, at: Instant)
    ensures forall x :: x in LiveCooldowns(cooldowns, other, at) ==> x in cooldowns && x.kid != other
  {
    if cooldowns != [] { LiveIsOld(cooldowns[1..], other, at); }
  }

  /** Remembering another key id moves a cooldown that is not over by one place at most. */
  lemma RestsOn(e: Entry, reply: Reply, other: Option<Kid>, at: Instant, kid: Kid, until: Instant, newest: nat)
    requires Rests(e, kid, until, newest) && other != Some(kid) && at < until && newest < 64
    ensures Rests(e.(cooldowns := Remembered(e.cooldowns, reply, other, at)), kid, until, newest + 1)
  {
    var i :| 0 <= i < |e.cooldowns| && |e.cooldowns| - i <= newest && e.cooldowns[i] == Cooldown(kid, until);
    if other.Some? {
      var j := LiveKeeps(e.cooldowns, other.value, at, i);
      var live := LiveCooldowns(e.cooldowns, other.value, at);
      var all := if other.value in reply.kids then live else live + [Cooldown(other.value, at + COOLDOWN)];
      assert all[j] == Cooldown(kid, until) && |all| - j <= newest + 1;
      if |all| > MAX_COOLDOWNS { assert all[|all| - MAX_COOLDOWNS..][j - (|all| - MAX_COOLDOWNS)] == all[j]; }
    }
  }

  lemma NoLongerThen(e: Entry, reply: Reply, other: Option<Kid>, at: Instant, kid: Kid, until: Instant)
    requires RestsNoLonger(e, kid, until) && other != Some(kid)
    ensures RestsNoLonger(e.(cooldowns := Remembered(e.cooldowns, reply, other, at)), kid, until)
  {
    if other.Some? {
      LiveIsOld(e.cooldowns, other.value, at);
      var left := Remembered(e.cooldowns, reply, other, at);
      forall i | 0 <= i < |left| && left[i].kid == kid ensures left[i].until <= until {
        assert left[i] in LiveCooldowns(e.cooldowns, other.value, at);
      }
    }
  }

  /** Remembering the key id itself, which the reply does not list. */
  lemma RestsFrom(e: Entry, reply: Reply, at: Instant, kid: Kid)
    requires kid !in reply.kids
    ensures var e' := e.(cooldowns := Remembered(e.cooldowns, reply, Some(kid), at)); Rests(e', kid, at + 10_000, 1) && RestsNoLonger(e', kid, at + 10_000)
  {
    LiveIsOld(e.cooldowns, kid, at);
    var left := Remembered(e.cooldowns, reply, Some(kid), at);
    assert left[|left| - 1] == Cooldown(kid, at + 10_000);
    forall i | 0 <= i < |left| && left[i].kid == kid ensures left[i].until <= at + 10_000 {
      assert left[i] in LiveCooldowns(e.cooldowns, kid, at) || left[i] == Cooldown(kid, at + COOLDOWN);
    }
  }

  // ---------- what a step does to an entry ----------

  /** The key id that a step may remember as missing. */
  ghost function AsksFor(s: State, step: Step): Option<Kid> {
    match step
    case Call(_, ask, _, _, _) => ask.missingKid
    case Settle(f, _) => if f in s.fetches then s.fetches[f].missingKid else None
    case Resume(w, _) => if w in s.waiting then s.waiting[w].ask.missingKid else None
    case _ => None
  }

  /** A load of the entry succeeds. */
  ghost predicate LoadLands(s: State, step: Step, ref: Ref) {
    step.Settle? && step.outcome.Some? && step.fetch in s.fetches && s.fetches[step.fetch].ref == ref && s.fetches[step.fetch].kind.Load?
  }

  /** Some reply was looked at for a missing key id. */
  ghost predicate Remembers(e: Entry, e': Entry, kid: Option<Kid>, at: Instant) {
    exists reply :: e'.cooldowns == Remembered(e.cooldowns, reply, kid, at)
  }

  ghost predicate EntryStep(s: State, n: State, step: Step, ref: Ref) {
    && ref in s.entries && ref in n.entries
    && var e, e' := s.entries[ref], n.entries[ref];
       && (e'.cooldowns == e.cooldowns || Remembers(e, e', AsksFor(s, step), s.clock) || LoadLands(s, step, ref))
       && (e.value.Some? ==> e'.value.Some?) && (e'.expiresAt == e.expiresAt || e'.expiresAt == s.clock + LIFETIME)
  }

  lemma SameEntryStep(s: State, n: State, step: Step, ref: Ref)
    requires ref in s.entries && ref in n.entries && n.entries[ref].cooldowns == s.entries[ref].cooldowns
    requires n.entries[ref].value == s.entries[ref].value && n.entries[ref].expiresAt == s.entries[ref].expiresAt
    ensures EntryStep(s, n, step, ref)
  {
  }

  /** What a call does to the entries that are there. */
  ghost predicate CallEntries(s: State, n: State, kid: Option<Kid>) {
    n.clock == s.clock
    && forall r :: r in s.entries ==>
         && r in n.entries && n.entries[r].value == s.entries[r].value && n.entries[r].expiresAt == s.entries[r].expiresAt
         && (n.entries[r].cooldowns == s.entries[r].cooldowns || Remembers(s.entries[r], n.entries[r], kid, s.clock))
  }

  lemma AnsweredEntries(s: State, ref: Ref, ask: Ask, fetch: Request, waiter: Waiter)
    requires ref in s.entries
    ensures CallEntries(s, Answered(s, ref, ask, fetch, waiter), ask.missingKid)
  {
    hide Remembered, CoolingDown;
    var e, n := s.entries[ref], Answered(s, ref, ask, fetch, waiter);
    if ask.force && Moved(e, ask) && e.value.Some? {
      assert n.entries[ref].cooldowns == Remembered(e.cooldowns, e.value.value, ask.missingKid, s.clock);
    }
  }

  /** Entries that differ in their last access only, or are new. */
  lemma EntriesThrough(s: State, b: State, n: State, kid: Option<Kid>)
    requires CallEntries(b, n, kid) && b.clock == s.clock
    requires forall r :: r in s.entries ==> r in b.entries && b.entries[r] == s.entries[r].(lastAccess := b.entries[r].lastAccess)
    ensures CallEntries(s, n, kid)
  {
    hide Remembered;
    forall r | r in s.entries && Remembers(b.entries[r], n.entries[r], kid, b.clock) ensures Remembers(s.entries[r], n.entries[r], kid, s.clock) {
      var reply :| n.entries[r].cooldowns == Remembered(b.entries[r].cooldowns, reply, kid, b.clock);
      assert n.entries[r].cooldowns == Remembered(s.entries[r].cooldowns, reply, kid, s.clock);
    }
  }

  lemma FoundEntries(s: State, table: map<Key, Ref>, ref: Ref, ask: Ask, fetch: Request, waiter: Waiter)
    requires ref in s.entries
    ensures CallEntries(s, Found(s.(table := table), ref, ask, fetch, waiter), ask.missingKid)
  {
    hide Answered, CallEntries;
    var b := Touched(s.(table := table), ref);
    AnsweredEntries(b, ref, ask, fetch, waiter);
    EntriesThrough(s, b, Answered(b, ref, ask, fetch, waiter), ask.missingKid);
  }

  lemma MissedEntries(s: State, room: map<Key, Ref>, key: Key, ask: Ask, newRef: Ref, fetch: Request, waiter: Waiter)
    requires newRef !in s.entries
    ensures CallEntries(s, Missed(s, room, key, ask, newRef, fetch, waiter), ask.missingKid)
  {
    hide Answered, Remembered;
    var b := Entered(s.(table := room), key, newRef);
    AnsweredEntries(b, newRef, ask, fetch, waiter);
    EntriesThrough(s, b, Answered(b, newRef, ask, fetch, waiter), ask.missingKid);
  }

  lemma CalledEntries(s: State, key: Key, ask: Ask, newRef: Ref, fetch: Request, waiter: Waiter)
    requires Inv(s) && newRef !in s.entries && fetch !in s.fetches
    ensures Backed(s.table, s.entries) && CallEntries(s, Called(s, key, ask, newRef, fetch, waiter), ask.missingKid)
  {
    KeyStaysOrGoes(s, key);
    hide Inv, Pruned, Found, Missed, CallEntries;
    var pruned := Pruned(s.table, s.entries, s.clock, MAX_ENTRIES);
    if key in pruned {
      FoundEntries(s, pruned, pruned[key], ask, fetch, waiter);
    } else {
      MissedEntries(s, Pruned(pruned, s.entries, s.clock, MAX_ENTRIES - 1), key, ask, newRef, fetch, waiter);
    }
  }

  lemma SettledEntryStep(s: State, step: Step, ref: Ref)
    requires step.Settle? && step.fetch in s.fetches && s.fetches[step.fetch].ref in s.entries && ref in s.entries
    ensures EntryStep(s, Settled(s, step.fetch, step.outcome), step, ref)
  {
    hide Remembered;
    var e, n := s.entries[ref], Settled(s, step.fetch, step.outcome);
    if step.outcome.Some? && s.fetches[step.fetch].ref == ref && s.fetches[step.fetch].generation >= e.generation && s.fetches[step.fetch].kind.Rollover? {
      assert n.entries[ref].cooldowns == Remembered(e.cooldowns, step.outcome.value, AsksFor(s, step), s.clock);
    }
  }

  lemma ResumedEntryStep(s: State, step: Step, w: Waiting, shared: Reply, ref: Ref)
    requires step.Resume? && step.waiter in s.waiting && s.waiting[step.waiter] == w && w.ref in s.entries && ref in s.entries
    ensures EntryStep(s, Resumed(s.(waiting := s.waiting - {step.waiter}), w, shared, step.newFetch), step, ref)
  {
    hide Remembered, Resumed, StartsOwn;
    var gone := s.(waiting := s.waiting - {step.waiter});
    var e, n := s.entries[ref], Resumed(gone, w, shared, step.newFetch);
    ResumedIs(gone, w, shared, step.newFetch);
    if n.entries[ref].cooldowns != e.cooldowns {
      assert n.entries[ref].cooldowns == SharedCooldowns(e, w, shared, s.clock);
      var reply := if w.kind.Rollover? then shared else e.value.value;
      assert n.entries[ref].cooldowns == Remembered(e.cooldowns, reply, AsksFor(s, step), s.clock);
    }
  }

  lemma StepOfEntry(s: State, step: Step, ref: Ref)
    requires Inv(s) && Enabled(s, step) && ref in s.entries
    ensures EntryStep(s, Next(s, step), step, ref) && s.clock <= Next(s, step).clock
  {
    hide Inv, Called, Settled, Resumed, EntryStep, Remembers;
    var n := Next(s, step);
    match step
    case Call(key, ask, newRef, fetch, waiter) =>
      CalledEntries(s, key, ask, newRef, fetch, waiter);
      CallStep(s, n, step, ref);
    case Settle(fetch, _) =>
      FetchIsBacked(s, fetch);
      SettledEntryStep(s, step, ref);
      SettledClock(s, fetch, step.outcome);
    case Resume(waiter, newFetch) =>
      WaiterIsBacked(s, waiter);
      var w := s.waiting[waiter];
      if s.fetches[w.fetch].progress.Succeeded? {
        ResumedEntryStep(s, step, w, s.fetches[w.fetch].progress.shared, ref);
        ResumedClock(s.(waiting := s.waiting - {waiter}), w, s.fetches[w.fetch].progress.shared, newFetch);
      } else {
        SameEntryStep(s, n, step, ref);
      }
    case Release(fetch) =>
      FetchIsBacked(s, fetch);
      SameEntryStep(s, n, step, ref);
    case Tick(to) => SameEntryStep(s, n, step, ref);
  }

  lemma CallStep(s: State, n: State, step: Step, ref: Ref)
    requires step.Call? && ref in s.entries && CallEntries(s, n, step.ask.missingKid)
    ensures EntryStep(s, n, step, ref) && n.clock == s.clock
  {
    hide Remembers;
  }

  lemma SettledClock(s: State, fetch: Request, outcome: Option<Reply>)
    requires fetch in s.fetches && s.fetches[fetch].ref in s.entries
    ensures Settled(s, fetch, outcome).clock == s.clock
  {
  }

  lemma ResumedClock(s: State, w: Waiting, shared: Reply, newFetch: Request)
    requires w.ref in s.entries
    ensures Resumed(s, w, shared, newFetch).clock == s.clock
  {
  }

  // ---------- runs ----------

  ghost predicate Changes(s: State, n: State, ref: Ref) {
    ref in s.entries && ref in n.entries && n.entries[ref].cooldowns != s.entries[ref].cooldowns
  }

  /** No load clears the cooldowns of the entry, and nobody remembers the key id anew. */
  ghost predicate Calm(s: State, steps: seq<Step>, ref: Ref, kid: Kid)
    requires Runs(s, steps)
    decreases |steps|
  {
    steps == [] ||
    (&& (Changes(s, Next(s, steps[0]), ref) ==> !LoadLands(s, steps[0], ref) && AsksFor(s, steps[0]) != Some(kid))
     && Calm(Next(s, steps[0]), steps[1..], ref, kid))
  }

  /** How often the cooldowns of the entry change. */
  ghost function CountChanges(s: State, steps: seq<Step>, ref: Ref): nat
    requires Runs(s, steps)
    decreases |steps|
  {
    if steps == [] then 0
    else (if Changes(s, Next(s, steps[0]), ref) then 1 else 0) + CountChanges(Next(s, steps[0]), steps[1..], ref)
  }

  /** The entry answers until then, and the key id rests until then and no longer. */
  ghost predicate Resting(s: State, ref: Ref, kid: Kid, until: Instant, newest: nat) {
    && ref in s.entries && s.entries[ref].value.Some? && RestsNoLonger(s.entries[ref], kid, until)
    && (s.clock < until ==> s.entries[ref].expiresAt >= until && Rests(s.entries[ref], kid, until, newest))
  }

  lemma StepRests(s: State, step: Step, ref: Ref, kid: Kid, until: Instant, newest: nat)
    requires Inv(s) && Enabled(s, step) && Resting(s, ref, kid, until, newest) && until <= s.clock + LIFETIME
    requires Changes(s, Next(s, step), ref) ==> newest < 64 && !LoadLands(s, step, ref) && AsksFor(s, step) != Some(kid)
    ensures Resting(Next(s, step), ref, kid, until, newest + if Changes(s, Next(s, step), ref) then 1 else 0)
    ensures s.clock <= Next(s, step).clock
  {
    StepOfEntry(s, step, ref);
    hide Inv, Next, Enabled, LoadLands, AsksFor;
    var e, e' := s.entries[ref], Next(s, step).entries[ref];
    if Changes(s, Next(s, step), ref) {
      assert Remembers(e, e', AsksFor(s, step), s.clock);
      RememberedRests(e, e', AsksFor(s, step), s.clock, kid, until, newest);
    }
  }

  lemma RememberedRests(e: Entry, e': Entry, other: Option<Kid>, at: Instant, kid: Kid, until: Instant, newest: nat)
    requires Remembers(e, e', other, at) && other != Some(kid) && newest < 64
    ensures RestsNoLonger(e, kid, until) ==> RestsNoLonger(e', kid, until)
    ensures at < until && Rests(e, kid, until, newest) ==> Rests(e', kid, until, newest + 1)
  {
    var reply :| e'.cooldowns == Remembered(e.cooldowns, reply, other, at);
    hide Remembered;
    if RestsNoLonger(e, kid, until) { NoLongerThen(e, reply, other, at, kid, until); }
    if at < until && Rests(e, kid, until, newest) { RestsOn(e, reply, other, at, kid, until, newest); }
  }

  lemma {:induction false} RunRests(s: State, steps: seq<Step>, ref: Ref, kid: Kid, until: Instant, newest: nat)
    requires Runs(s, steps) && Calm(s, steps, ref, kid) && Resting(s, ref, kid, until, newest) && until <= s.clock + LIFETIME
    requires newest + CountChanges(s, steps, ref) <= 64
    ensures Resting(Final(s, steps), ref, kid, until, newest + CountChanges(s, steps, ref)) && Inv(Final(s, steps))
    decreases |steps|
  {
    hide Next, Inv, Enabled, Resting, Changes, LoadLands, AsksFor;
    if steps != [] {
      StepRests(s, steps[0], ref, kid, until, newest);
      RunRests(Next(s, steps[0]), steps[1..], ref, kid, until, newest + if Changes(s, Next(s, steps[0]), ref) then 1 else 0);
    }
  }

  // ---------- calls ----------

  /** The call is answered from the entry under its key at once. */
  ghost predicate AnsweredAtOnce(s: State, n: State, call: Step)
    requires call.Call?
  {
    && n.fetches == s.fetches && n.waiting == s.waiting && call.key in s.table && call.key in n.table && n.table[call.key] == s.table[call.key]
    && s.table[call.key] in s.entries && s.table[call.key] in n.entries
    && n.entries[s.table[call.key]].value == s.entries[s.table[call.key]].value && s.entries[s.table[call.key]].value.Some?
  }

  lemma FreshIsFound(s: State, call: Step)
    requires Inv(s) && call.Call? && call.key in s.table && s.table[call.key] in s.entries && !Dead(s.entries[s.table[call.key]], s.clock)
    ensures Backed(s.table, s.entries)
    ensures exists table :: Called(s, call.key, call.ask, call.newRef, call.fetch, call.waiter)
                            == Found(s.(table := table), s.table[call.key], call.ask, call.fetch, call.waiter)
                            && call.key in table && table[call.key] == s.table[call.key]
  {
    FreshStays(s, call.key);
    hide Inv, Found, Missed, Pruned;
  }

  lemma FoundAtOnce(s: State, table: map<Key, Ref>, call: Step)
    requires call.Call? && call.key in table && call.key in s.table && table[call.key] == s.table[call.key] && s.table[call.key] in s.entries
    requires s.entries[s.table[call.key]].value.Some?
    requires var e := s.entries[s.table[call.key]];
             if call.ask.force then !Moved(e, call.ask) && CoolingDown(e, call.ask.missingKid, s.clock) else e.expiresAt > s.clock
    ensures AnsweredAtOnce(s, Found(s.(table := table), s.table[call.key], call.ask, call.fetch, call.waiter), call)
  {
    var e := s.entries[s.table[call.key]];
    SameCooling(e, e.(lastAccess := s.nextAccess), call.ask, s.clock);
    hide CoolingDown;
  }

  lemma AtOnce(s: State, call: Step)
    requires Inv(s) && call.Call? && Enabled(s, call) && call.key in s.table && s.table[call.key] in s.entries
    requires var e := s.entries[s.table[call.key]];
             && e.value.Some? && e.expiresAt > s.clock
             && (call.ask.force ==> !Moved(e, call.ask) && CoolingDown(e, call.ask.missingKid, s.clock))
    ensures AnsweredAtOnce(s, Next(s, call), call)
  {
    hide Inv, Called, Found, AnsweredAtOnce, CoolingDown;
    FreshIsFound(s, call);
    var table :| Called(s, call.key, call.ask, call.newRef, call.fetch, call.waiter)
                   == Found(s.(table := table), s.table[call.key], call.ask, call.fetch, call.waiter)
                 && call.key in table && table[call.key] == s.table[call.key];
    FoundAtOnce(s, table, call);
  }

  /** The call starts a fetch for the entry that it leaves under its key. */
  ghost predicate Fetches(n: State, call: Step)
    requires call.Call?
  {
    && call.fetch in n.fetches && n.fetches[call.fetch].progress.Running? && call.key in n.table && n.table[call.key] == n.fetches[call.fetch].ref
    && n.fetches[call.fetch].kind == if call.ask.force then Rollover else Load
  }

  lemma FoundFetches(s: State, table: map<Key, Ref>, call: Step)
    requires call.Call? && call.key in table && call.key in s.table && table[call.key] == s.table[call.key] && s.table[call.key] in s.entries
    requires var e := s.entries[s.table[call.key]];
             e.inflight.None? && if call.ask.force then !Moved(e, call.ask) && !CoolingDown(e, call.ask.missingKid, s.clock) else e.value.None? || e.expiresAt <= s.clock
    ensures Fetches(Found(s.(table := table), s.table[call.key], call.ask, call.fetch, call.waiter), call)
  {
    var e := s.entries[s.table[call.key]];
    SameCooling(e, e.(lastAccess := s.nextAccess), call.ask, s.clock);
    hide CoolingDown;
  }

  lemma MissedFetches(s: State, room: map<Key, Ref>, call: Step)
    requires call.Call? && |room| < MAX_ENTRIES
    ensures Fetches(Missed(s, room, call.key, call.ask, call.newRef, call.fetch, call.waiter), call)
  {
  }

  /** An entry that is swept away leaves room for a new one. */
  lemma SweptRoom(s: State, key: Key)
    requires Inv(s) && key in s.table && s.table[key] in s.entries && Dead(s.entries[s.table[key]], s.clock)
    ensures Backed(s.table, s.entries)
    ensures var pruned := Pruned(s.table, s.entries, s.clock, MAX_ENTRIES);
            Backed(pruned, s.entries) && key !in pruned && |Pruned(pruned, s.entries, s.clock, MAX_ENTRIES - 1)| < MAX_ENTRIES
  {
    InvBacked(s);
    var swept := Swept(s.table, s.entries, s.clock);
    assert swept.Keys <= s.table.Keys - {key};
    SubsetSmaller(swept.Keys, s.table.Keys - {key});
    assert |swept.Keys| == |swept| && |s.table.Keys| == |s.table|;
    var pruned := Pruned(s.table, s.entries, s.clock, MAX_ENTRIES);
    SweptSmaller(pruned, s.entries, s.clock);
  }

  lemma Fetching(s: State, call: Step)
    requires Inv(s) && call.Call? && Enabled(s, call) && call.key in s.table && s.table[call.key] in s.entries
    requires var e := s.entries[s.table[call.key]];
             e.inflight.None? && if call.ask.force then !Moved(e, call.ask) && !CoolingDown(e, call.ask.missingKid, s.clock) else e.value.None? || e.expiresAt <= s.clock
    ensures Fetches(Next(s, call), call)
  {
    hide Inv, Called, Found, Missed, Pruned, Fetches, CoolingDown;
    if Dead(s.entries[s.table[call.key]], s.clock) {
      SweptRoom(s, call.key);
      var pruned := Pruned(s.table, s.entries, s.clock, MAX_ENTRIES);
      CalledMissed(s, call);
      MissedFetches(s, Pruned(pruned, s.entries, s.clock, MAX_ENTRIES - 1), call);
    } else {
      FreshIsFound(s, call);
      var table :| Called(s, call.key, call.ask, call.newRef, call.fetch, call.waiter)
                     == Found(s.(table := table), s.table[call.key], call.ask, call.fetch, call.waiter)
                   && call.key in table && table[call.key] == s.table[call.key];
      FoundFetches(s, table, call);
    }
  }

  lemma CalledMissed(s: State, call: Step)
    requires call.Call? && Backed(s.table, s.entries) && call.key !in Pruned(s.table, s.entries, s.clock, MAX_ENTRIES)
    requires Backed(Pruned(s.table, s.entries, s.clock, MAX_ENTRIES), s.entries)
    ensures Called(s, call.key, call.ask, call.newRef, call.fetch, call.waiter)
         == Missed(s, Pruned(Pruned(s.table, s.entries, s.clock, MAX_ENTRIES), s.entries, s.clock, MAX_ENTRIES - 1),
                   call.key, call.ask, call.newRef, call.fetch, call.waiter)
  {
    hide Found, Missed, Pruned;
  }

  // ---------- ten seconds for a key id that was not found ----------

  /** A refresh for a key id brings a reply, and the reply does not list it. */
  ghost predicate Misses(s: State, f: Request, reply: Reply, kid: Kid) {
    && Inv(s) && f in s.fetches && s.fetches[f].progress.Running? && s.fetches[f].kind.Rollover? && s.fetches[f].missingKid == Some(kid)
    && kid !in reply.kids && s.fetches[f].ref in s.entries && s.entries[s.fetches[f].ref].generation <= s.fetches[f].generation
  }

  lemma MissRests(s: State, f: Request, reply: Reply, kid: Kid)
    requires Misses(s, f, reply, kid)
    ensures var n := Next(s, Settle(f, Some(reply)));
            Inv(n) && n.clock == s.clock && Resting(n, s.fetches[f].ref, kid, s.clock + 10_000, 1)
  {
    NextKeeps(s, Settle(f, Some(reply)));
    RestsFrom(s.entries[s.fetches[f].ref], reply, s.clock, kid);
    hide Inv, Remembered;
  }

  /** A refresh for a key id that brings a reply which lists it ends the waiting for it. */
  lemma FoundKidIsFree(s: State, f: Request, reply: Reply, kid: Kid)
    requires Inv(s) && f in s.fetches && s.fetches[f].progress.Running? && s.fetches[f].kind.Rollover? && s.fetches[f].missingKid == Some(kid)
    requires kid in reply.kids && s.fetches[f].ref in s.entries && s.entries[s.fetches[f].ref].generation <= s.fetches[f].generation
    ensures var n, ref := Next(s, Settle(f, Some(reply))), s.fetches[f].ref;
            ref in n.entries && forall i :: 0 <= i < |n.entries[ref].cooldowns| ==> n.entries[ref].cooldowns[i].kid != kid
  {
    var n, ref := Next(s, Settle(f, Some(reply))), s.fetches[f].ref;
    var e := s.entries[ref];
    LiveIsOld(e.cooldowns, kid, s.clock);
    var left := Remembered(e.cooldowns, reply, Some(kid), s.clock);
    forall i | 0 <= i < |left| ensures left[i].kid != kid {
      assert left[i] in LiveCooldowns(e.cooldowns, kid, s.clock);
    }
  }

  /** The call asks for the key id, having read the current generation of the entry under its key. */
  ghost predicate AsksAgain(s: State, call: Step, ref: Ref, kid: Kid) {
    && call.Call? && Enabled(s, call) && call.key in s.table && s.table[call.key] == ref && ref in s.entries
    && call.ask == Ask(true, Some(s.entries[ref].generation), Some(kid))
  }

  /** Whatever happens after the miss, short of a load of the entry, of others who remember the key id
      anew, and of more than 63 changes of the cooldowns: for ten seconds whoever asks for the key id
      again is answered from the cache, and afterwards such a call starts a fetch unless one is marked. */
  lemma MissedKidWaits(s: State, f: Request, reply: Reply, kid: Kid, steps: seq<Step>, call: Step)
    requires Misses(s, f, reply, kid)
    requires var n, ref := Next(s, Settle(f, Some(reply))), s.fetches[f].ref;
             && Runs(n, steps) && Calm(n, steps, ref, kid) && CountChanges(n, steps, ref) <= 63
             && AsksAgain(Final(n, steps), call, ref, kid)
    ensures var m := Final(Next(s, Settle(f, Some(reply))), steps);
            && Inv(m)
            && (m.clock < s.clock + 10_000 ==> AnsweredAtOnce(m, Next(m, call), call))
            && (m.clock >= s.clock + 10_000 && m.entries[s.fetches[f].ref].inflight.None? ==> Fetches(Next(m, call), call))
  {
    hide Inv, Next, Runs, Final, Calm, CountChanges, Resting, Misses, AnsweredAtOnce, Fetches;
    MissRests(s, f, reply, kid);
    MissIsEnabled(s, f, reply, kid);
    var n, ref := Next(s, Settle(f, Some(reply))), s.fetches[f].ref;
    RunRests(n, steps, ref, kid, s.clock + 10_000, 1);
    var m := Final(n, steps);
    AskedAgain(m, call, ref, kid, s.clock + 10_000, 1 + CountChanges(n, steps, ref));
  }

  lemma MissIsEnabled(s: State, f: Request, reply: Reply, kid: Kid)
    requires Misses(s, f, reply, kid)
    ensures Inv(s) && Enabled(s, Settle(f, Some(reply)))
  {
  }

  lemma AskedAgain(s: State, call: Step, ref: Ref, kid: Kid, until: Instant, newest: nat)
    requires Inv(s) && AsksAgain(s, call, ref, kid) && Resting(s, ref, kid, until, newest)
    ensures s.clock < until ==> AnsweredAtOnce(s, Next(s, call), call)
    ensures s.clock >= until && s.entries[ref].inflight.None? ==> Fetches(Next(s, call), call)
  {
    hide Inv, Next, AnsweredAtOnce, Fetches;
    if s.clock < until {
      RestingCools(s.entries[ref], kid, until, newest, s.clock);
      AtOnce(s, call);
    } else if s.entries[ref].inflight.None? {
      assert !CoolingDown(s.entries[ref], Some(kid), s.clock);
      Fetching(s, call);
    }
  }

  lemma RestingCools(e: Entry, kid: Kid, until: Instant, newest: nat, now: Instant)
    requires Rests(e, kid, until, newest) && now < until && e.value.Some?
    ensures CoolingDown(e, Some(kid), now)
  {
  }

  /** A caller that has waited for a load of the entry keeps to the same ten seconds. */
  lemma WaiterKeepsToIt(s: State, step: Step, ref: Ref, kid: Kid, until: Instant, newest: nat)
    requires Inv(s) && step.Resume? && Enabled(s, step) && Resting(s, ref, kid, until, newest)
    requires var w := s.waiting[step.waiter];
             && w.ref == ref && w.kind.Load? && w.fetch in s.fetches && s.fetches[w.fetch].progress.Succeeded?
             && w.ask == Ask(true, Some(s.entries[ref].generation), Some(kid))
    ensures s.clock < until ==> Next(s, step).fetches == s.fetches
    ensures s.clock >= until ==> step.newFetch in Next(s, step).fetches
  {
    hide Inv;
    if s.clock < until { RestingCools(s.entries[ref], kid, until, newest, s.clock); }
  }

  // ---------- five minutes for a reply ----------

  ghost predicate FreshUntil(s: State, ref: Ref, until: Instant) {
    ref in s.entries && s.entries[ref].value.Some? && s.entries[ref].expiresAt >= until
  }

  lemma {:induction false} RunFresh(s: State, steps: seq<Step>, ref: Ref, until: Instant)
    requires Runs(s, steps) && FreshUntil(s, ref, until) && until <= s.clock + LIFETIME
    ensures FreshUntil(Final(s, steps), ref, until) && Inv(Final(s, steps))
    decreases |steps|
  {
    hide Next, Inv, Enabled, LoadLands, AsksFor, Remembers;
    if steps != [] {
      StepOfEntry(s, steps[0], ref);
      RunFresh(Next(s, steps[0]), steps[1..], ref, until);
    }
  }

  /** A reply is served for five minutes without a fetch, as long as its entry is in the cache; when an
      entry's value is stale and nothing is marked, a lookup fetches. */
  lemma ServedForFiveMinutes(s: State, f: Request, reply: Reply, steps: seq<Step>, call: Step)
    requires Inv(s) && Enabled(s, Settle(f, Some(reply))) && s.fetches[f].ref in s.entries
    requires s.entries[s.fetches[f].ref].generation <= s.fetches[f].generation
    requires var n := Next(s, Settle(f, Some(reply)));
             && Runs(n, steps) && call.Call? && Enabled(Final(n, steps), call) && !call.ask.force
             && call.key in Final(n, steps).table && Final(n, steps).table[call.key] == s.fetches[f].ref
    ensures var m := Final(Next(s, Settle(f, Some(reply))), steps); var ref := s.fetches[f].ref;
            && Inv(m) && ref in m.entries
            && (m.clock < s.clock + 300_000 ==> AnsweredAtOnce(m, Next(m, call), call))
            && (m.entries[ref].inflight.None? && m.entries[ref].expiresAt <= m.clock ==> Fetches(Next(m, call), call))
  {
    SettledFresh(s, f, reply);
    var n, ref := Next(s, Settle(f, Some(reply))), s.fetches[f].ref;
    hide Inv, Next, Runs, Final, AnsweredAtOnce, Fetches;
    RunFresh(n, steps, ref, s.clock + 300_000);
    var m := Final(n, steps);
    if m.clock < s.clock + 300_000 { AtOnce(m, call); }
    if m.entries[ref].inflight.None? && m.entries[ref].expiresAt <= m.clock { Fetching(m, call); }
  }

  lemma SettledFresh(s: State, f: Request, reply: Reply)
    requires Inv(s) && Enabled(s, Settle(f, Some(reply))) && s.fetches[f].ref in s.entries
    requires s.entries[s.fetches[f].ref].generation <= s.fetches[f].generation
    ensures FreshUntil(Next(s, Settle(f, Some(reply))), s.fetches[f].ref, s.clock + 300_000) && Next(s, Settle(f, Some(reply))).clock == s.clock
  {
    hide Inv, Remembered;
  }

  // ---------- what eviction takes ----------

  /** Eviction takes idle entries only, and none that was used later than an idle one that it leaves. */
  lemma {:induction false} LeastRecentlyUsedGoes(table: map<Key, Ref>, entries: map<Ref, Entry>, target: nat, gone: Key, left: Key)
    requires Backed(table, entries) && gone in table && gone !in EvictedDown(table, entries, target)
    requires left in EvictedDown(table, entries, target)
    ensures entries[table[gone]].inflight.None?
    ensures left in table && (entries[table[left]].inflight.None? ==> entries[table[gone]].lastAccess <= entries[table[left]].lastAccess)
    decreases |table|
  {
    var any :| Idle(table, entries, any);
    SomeFirstToGo(table, entries, any);
    var k :| FirstToGo(table, entries, k);
    OnlyFirst(table, entries, k);
    assert EvictedDown(table, entries, target) == EvictedDown(table - {k}, entries, target);
    Smaller(table, k);
    if gone != k {
      LeastRecentlyUsedGoes(table - {k}, entries, target, gone, left);
    } else if entries[table[left]].inflight.None? {
      assert Idle(table, entries, left);
    }
  }

  lemma OnlyFirst(table: map<Key, Ref>, entries: map<Ref, Entry>, k: Key)
    requires Backed(table, entries) && FirstToGo(table, entries, k)
    ensures forall other :: FirstToGo(table, entries, other) ==> other == k
  {
    forall other | FirstToGo(table, entries, other) ensures other == k {
      assert Before(table, entries, k, other) && Before(table, entries, other, k);
    }
  }

  /** Every entry was used before now. */
  ghost predicate UsedBefore(s: State) {
    forall r :: r in s.entries ==> s.entries[r].lastAccess < s.nextAccess
  }

  /** The entry under the key was used after every other one. */
  ghost predicate UsedLast(s: State, key: Key) {
    key in s.table ==>
      && s.table[key] in s.entries
      && forall r :: r in s.entries && r != s.table[key] ==> s.entries[r].lastAccess < s.entries[s.table[key]].lastAccess
  }

  /** Nothing but the access counter tells the order of use here. */
  ghost predicate SameUse(s: State, n: State) {
    n.table == s.table && n.nextAccess == s.nextAccess && n.entries.Keys == s.entries.Keys
    && forall r :: r in s.entries ==> n.entries[r].lastAccess == s.entries[r].lastAccess
  }

  lemma AnsweredUse(s: State, ref: Ref, ask: Ask, fetch: Request, waiter: Waiter)
    requires ref in s.entries
    ensures SameUse(s, Answered(s, ref, ask, fetch, waiter))
  {
    hide Remembered, CoolingDown;
  }

  lemma SameUseUsed(s: State, n: State, key: Key)
    requires SameUse(s, n) && UsedBefore(s) && UsedLast(s, key)
    ensures UsedBefore(n) && UsedLast(n, key)
  {
  }

  lemma FoundUse(s: State, table: map<Key, Ref>, key: Key, ask: Ask, fetch: Request, waiter: Waiter)
    requires UsedBefore(s) && key in table && table[key] in s.entries
    ensures var n := Found(s.(table := table), table[key], ask, fetch, waiter); UsedBefore(n) && UsedLast(n, key)
  {
    hide Answered;
    var b := Touched(s.(table := table), table[key]);
    AnsweredUse(b, table[key], ask, fetch, waiter);
    SameUseUsed(b, Answered(b, table[key], ask, fetch, waiter), key);
  }

  lemma MissedUse(s: State, room: map<Key, Ref>, key: Key, ask: Ask, newRef: Ref, fetch: Request, waiter: Waiter)
    requires UsedBefore(s) && key !in room && newRef !in s.entries
    ensures var n := Missed(s, room, key, ask, newRef, fetch, waiter); UsedBefore(n) && UsedLast(n, key)
  {
    hide Answered;
    var b := Entered(s.(table := room), key, newRef);
    AnsweredUse(b, newRef, ask, fetch, waiter);
    SameUseUsed(b, Answered(b, newRef, ask, fetch, waiter), key);
  }

  /** A lookup is what counts as use: the entry that it leaves under its key was used last. */
  lemma LookupIsUse(s: State, call: Step)
    requires Inv(s) && UsedBefore(s) && call.Call? && Enabled(s, call)
    ensures UsedBefore(Next(s, call)) && UsedLast(Next(s, call), call.key)
  {
    KeyStaysOrGoes(s, call.key);
    var pruned := Pruned(s.table, s.entries, s.clock, MAX_ENTRIES);
    PrunedTraits(pruned, s.entries, s.clock, MAX_ENTRIES - 1);
    hide Inv, Pruned, Found, Missed, UsedBefore, UsedLast;
    if call.key in pruned {
      FoundUse(s, pruned, call.key, call.ask, call.fetch, call.waiter);
    } else {
      MissedUse(s, Pruned(pruned, s.entries, s.clock, MAX_ENTRIES - 1), call.key, call.ask, call.newRef, call.fetch, call.waiter);
    }
  }

  /** Nothing else is: every other step leaves the order of use as it is. */
  lemma OthersAreNoUse(s: State, step: Step)
    requires Inv(s) && !step.Call? && Enabled(s, step)
    ensures SameUse(s, Next(s, step))
  {
    hide Inv, Resumed, Remembered;
    match step
    case Settle(fetch, _) => FetchIsBacked(s, fetch);
    case Release(fetch) => FetchIsBacked(s, fetch);
    case Resume(waiter, newFetch) =>
      WaiterIsBacked(s, waiter);
      var w := s.waiting[waiter];
      if s.fetches[w.fetch].progress.Succeeded? { ResumedUse(s.(waiting := s.waiting - {waiter}), w, s.fetches[w.fetch].progress.shared, newFetch); }
    case Tick(_) =>
  }

  lemma ResumedUse(s: State, w: Waiting, shared: Reply, newFetch: Request)
    requires w.ref in s.entries
    ensures SameUse(s, Resumed(s, w, shared, newFetch)) && Resumed(s, w, shared, newFetch).waiting == s.waiting
  {
    hide Remembered, CoolingDown;
  }
}
