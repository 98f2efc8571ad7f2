/** What every step of the Microsoft caches keeps about the stamps of fetches and the marks of
    entries (src/auth-runtime.ts), in whatever order fetches end and callers go on. */
module OidcStamps {

  import opened OidcCache

  // ---------- marks ----------

  /** An entry marked as in flight is never evicted. */
  lemma MarkedStays(s: State, step: Step, key: Key)
    requires Inv(s) && Enabled(s, step)
    requires key in s.table && s.entries[s.table[key]].inflight.Some?
    ensures key in Next(s, step).table && Next(s, step).table[key] == s.table[key]
  {
    hide EvictedDown, Remembered, FetchSound, EntrySound, CoolingDown, Called;
    match step
    case Call(k, ask, newRef, fetch, waiter) => CallTraits(s, k, ask, newRef, fetch, waiter);
    case _ =>
  }

  /** Every fetch under way is the one its entry is marked with. */
  ghost predicate SingleFlight(s: State) {
    forall f :: f in s.fetches && s.fetches[f].progress.Running? ==>
      s.fetches[f].ref in s.entries && s.entries[s.fetches[f].ref].inflight == Some(f)
  }

  ghost predicate MarksKept(s: State, n: State) {
    n.fetches == s.fetches && forall r :: r in s.entries ==> r in n.entries && n.entries[r].inflight == s.entries[r].inflight
  }

  lemma MarksSame(s: State)
    ensures MarksKept(s, s)
  {
  }

  lemma CallKeepsSingleFlight(s: State, n: State, fetch: Request)
    requires Inv(s) && SingleFlight(s) && CallLeaves(s, n) && CallStarts(s, n, fetch)
    ensures SingleFlight(n)
  {
    hide EntrySound, FetchSound;
  }

  lemma SettleKeepsSingleFlight(s: State, step: Step)
    requires Inv(s) && SingleFlight(s) && step.Settle? && Enabled(s, step)
    ensures SingleFlight(Next(s, step))
  {
    hide EntrySound, Remembered;
    assert FetchSound(s, step.fetch);
  }

  /** The entry under a key stays while a fetch of it is under way. */
  ghost predicate UsedStays(s: State, n: State) {
    forall key, f :: key in s.table && f in s.fetches && s.fetches[f].ref == s.table[key] && s.fetches[f].progress.Running? ==>
      key in n.table && n.table[key] == s.table[key]
  }

  lemma UsedStaysOneStep(s: State, step: Step)
    requires Inv(s) && Enabled(s, step) && SingleFlight(s)
    ensures UsedStays(s, Next(s, step))
  {
    hide Next, Inv, Enabled;
    forall key, f | key in s.table && f in s.fetches && s.fetches[f].ref == s.table[key] && s.fetches[f].progress.Running?
      ensures key in Next(s, step).table && Next(s, step).table[key] == s.table[key]
    {
      MarkedStays(s, step, key);
    }
  }

  // ---------- joining ----------

  /** The call joins a load under its key: it forces a refresh, and neither a newer generation nor
      a cooldown answers it at once. */
  predicate JoinsLoad(s: State, key: Key, ask: Ask)
    requires Backed(s.table, s.entries)
  {
    && ask.force && key in s.table
    && var e := s.entries[s.table[key]];
       e.inflight.Some? && e.kind.Load? && !(Moved(e, ask) && e.value.Some?) && !CoolingDown(e, ask.missingKid, s.clock)
  }

  function Marked(s: State, key: Key): Request
    requires Backed(s.table, s.entries) && key in s.table && s.entries[s.table[key]].inflight.Some?
  {
    s.entries[s.table[key]].inflight.value
  }

  /** A call that waits joins the fetch that the entry under its key is marked with. */
  ghost predicate CallJoins(s: State, n: State, key: Key, ask: Ask, waiter: Waiter)
    requires Backed(s.table, s.entries)
  {
    || n.waiting == s.waiting
    || (&& n.fetches == s.fetches && key in s.table
        && var e := s.entries[s.table[key]];
           && e.inflight.Some? && n.waiting == s.waiting[waiter := Waiting(s.table[key], e.inflight.value, e.kind, ask)]
           && (ask.force && e.kind.Load? ==> JoinsLoad(s, key, ask)))
  }

  lemma CallWaits(s: State, key: Key, ask: Ask, newRef: Ref, fetch: Request, waiter: Waiter)
    requires Inv(s) && newRef !in s.entries && fetch !in s.fetches
    ensures Backed(s.table, s.entries) && CallJoins(s, Called(s, key, ask, newRef, fetch, waiter), key, ask, waiter)
  {
    KeyStaysOrGoes(s, key);
    hide Inv, Pruned, Found, Missed;
    var pruned := Pruned(s.table, s.entries, s.clock, MAX_ENTRIES);
    if key in pruned {
      FoundWaits(s, pruned, key, ask, fetch, waiter);
    } else {
      MissedWaits(s, Pruned(pruned, s.entries, s.clock, MAX_ENTRIES - 1), key, ask, newRef, fetch, waiter);
    }
  }

  lemma FoundWaits(s: State, table: map<Key, Ref>, key: Key, ask: Ask, fetch: Request, waiter: Waiter)
    requires Backed(s.table, s.entries) && key in s.table && key in table && table[key] == s.table[key]
    ensures CallJoins(s, Found(s.(table := table), table[key], ask, fetch, waiter), key, ask, waiter)
  {
    hide CoolingDown, Remembered;
    var e := s.entries[s.table[key]];
    SameCooling(e, e.(lastAccess := s.nextAccess), ask, s.clock);
  }

  lemma MissedWaits(s: State, room: map<Key, Ref>, key: Key, ask: Ask, newRef: Ref, fetch: Request, waiter: Waiter)
    ensures Missed(s, room, key, ask, newRef, fetch, waiter).waiting == s.waiting
  {
  }

  /** A call marks entries with its own fetch only. */
  ghost predicate CallMarks(s: State, n: State, fetch: Request) {
    forall r :: r in n.entries && n.entries[r].inflight.Some? ==>
      n.entries[r].inflight == Some(fetch) || (r in s.entries && n.entries[r].inflight == s.entries[r].inflight)
  }

  lemma CallMarksOwn(s: State, key: Key, ask: Ask, newRef: Ref, fetch: Request, waiter: Waiter)
    requires Inv(s) && newRef !in s.entries && fetch !in s.fetches
    ensures Backed(s.table, s.entries) && CallMarks(s, Called(s, key, ask, newRef, fetch, waiter), fetch)
  {
    KeyStaysOrGoes(s, key);
    hide Inv, Pruned, Found, Missed, CallMarks;
    var pruned := Pruned(s.table, s.entries, s.clock, MAX_ENTRIES);
    if key in pruned {
      FoundMarks(s, pruned, key, ask, fetch, waiter);
    } else {
      MissedMarks(s, Pruned(pruned, s.entries, s.clock, MAX_ENTRIES - 1), key, ask, newRef, fetch, waiter);
    }
  }

  lemma FoundMarks(s: State, table: map<Key, Ref>, key: Key, ask: Ask, fetch: Request, waiter: Waiter)
    requires key in table && table[key] in s.entries
    ensures CallMarks(s, Found(s.(table := table), table[key], ask, fetch, waiter), fetch)
  {
    hide Answered;
    AnsweredMarks(Touched(s.(table := table), table[key]), table[key], ask, fetch, waiter);
  }

  lemma MissedMarks(s: State, room: map<Key, Ref>, key: Key, ask: Ask, newRef: Ref, fetch: Request, waiter: Waiter)
    requires newRef !in s.entries
    ensures CallMarks(s, Missed(s, room, key, ask, newRef, fetch, waiter), fetch)
  {
    hide Answered;
    AnsweredMarks(Entered(s.(table := room), key, newRef), newRef, ask, fetch, waiter);
  }

  lemma AnsweredMarks(s: State, ref: Ref, ask: Ask, fetch: Request, waiter: Waiter)
    requires ref in s.entries
    ensures CallMarks(s, Answered(s, ref, ask, fetch, waiter), fetch)
  {
    hide Remembered, CoolingDown;
  }

  /** What a call does to the table and to the values of entries; it starts a load only where no value
      is fresh. */
  ghost predicate CallValues(s: State, n: State, newRef: Ref, fetch: Request) {
    && (forall k :: k in n.table ==> (k in s.table && n.table[k] == s.table[k]) || n.table[k] == newRef)
    && (forall r :: r in s.entries ==> r in n.entries && n.entries[r].value == s.entries[r].value && n.entries[r].expiresAt == s.entries[r].expiresAt)
    && (fetch !in s.fetches && fetch in n.fetches ==>
          && n.fetches[fetch].progress.Running? && n.fetches[fetch].ref in n.entries
          && var e := n.entries[n.fetches[fetch].ref]; n.fetches[fetch].kind.Load? ==> e.value.None? || e.expiresAt <= s.clock)
    && n.clock == s.clock
  }

  lemma AnsweredValues(s: State, ref: Ref, ask: Ask, newRef: Ref, fetch: Request, waiter: Waiter)
    requires ref in s.entries
    ensures CallValues(s, Answered(s, ref, ask, fetch, waiter), newRef, fetch)
  {
    hide Remembered, CoolingDown;
  }

  lemma CallKeepsValues(s: State, key: Key, ask: Ask, newRef: Ref, fetch: Request, waiter: Waiter)
    requires Inv(s) && newRef !in s.entries && fetch !in s.fetches
    ensures Backed(s.table, s.entries) && CallValues(s, Called(s, key, ask, newRef, fetch, waiter), newRef, fetch)
  {
    InvBacked(s);
    var pruned := Pruned(s.table, s.entries, s.clock, MAX_ENTRIES);
    PrunedTraits(s.table, s.entries, s.clock, MAX_ENTRIES);
    var room := Pruned(pruned, s.entries, s.clock, MAX_ENTRIES - 1);
    PrunedTraits(pruned, s.entries, s.clock, MAX_ENTRIES - 1);
    hide Inv, Pruned, Found, Missed, CallValues;
    if key in pruned {
      FoundValues(s, pruned, key, ask, newRef, fetch, waiter);
    } else {
      MissedValues(s, room, key, ask, newRef, fetch, waiter);
    }
  }

  lemma FoundValues(s: State, table: map<Key, Ref>, key: Key, ask: Ask, newRef: Ref, fetch: Request, waiter: Waiter)
    requires key in table && table[key] in s.entries && forall k :: k in table ==> k in s.table && table[k] == s.table[k]
    ensures CallValues(s, Found(s.(table := table), table[key], ask, fetch, waiter), newRef, fetch)
  {
    hide Answered;
    AnsweredValues(Touched(s.(table := table), table[key]), table[key], ask, newRef, fetch, waiter);
  }

  lemma MissedValues(s: State, room: map<Key, Ref>, key: Key, ask: Ask, newRef: Ref, fetch: Request, waiter: Waiter)
    requires newRef !in s.entries && forall k :: k in room ==> k in s.table && room[k] == s.table[k]
    ensures CallValues(s, Missed(s, room, key, ask, newRef, fetch, waiter), newRef, fetch)
  {
    hide Answered;
    AnsweredValues(Entered(s.(table := room), key, newRef), newRef, ask, newRef, fetch, waiter);
  }

  /** Where a call waits or fetches, its key has the entry that it does so for; a call that does not
      force a refresh, and neither waits nor fetches nor is refused, is answered with a fresh value. */
  ghost predicate CallServes(n: State, key: Key, ask: Ask, fetch: Request, waiter: Waiter) {
    && (waiter in n.waiting ==> key in n.table && n.table[key] == n.waiting[waiter].ref)
    && (fetch in n.fetches ==> key in n.table && n.table[key] == n.fetches[fetch].ref)
    && (!ask.force && key in n.table && waiter !in n.waiting && fetch !in n.fetches ==>
          n.table[key] in n.entries && n.entries[n.table[key]].value.Some? && n.entries[n.table[key]].expiresAt > n.clock)
  }

  lemma AnsweredServes(s: State, key: Key, ask: Ask, fetch: Request, waiter: Waiter)
    requires key in s.table && s.table[key] in s.entries && fetch !in s.fetches && waiter !in s.waiting
    ensures CallServes(Answered(s, s.table[key], ask, fetch, waiter), key, ask, fetch, waiter)
  {
    hide Remembered, CoolingDown;
  }

  lemma MissedServes(s: State, room: map<Key, Ref>, key: Key, ask: Ask, newRef: Ref, fetch: Request, waiter: Waiter)
    requires key !in room && fetch !in s.fetches && waiter !in s.waiting
    ensures CallServes(Missed(s, room, key, ask, newRef, fetch, waiter), key, ask, fetch, waiter)
  {
    hide Answered;
    AnsweredServes(Entered(s.(table := room), key, newRef), key, ask, fetch, waiter);
  }

  lemma CallIsServed(s: State, key: Key, ask: Ask, newRef: Ref, fetch: Request, waiter: Waiter)
    requires Inv(s) && newRef !in s.entries && fetch !in s.fetches && waiter !in s.waiting
    ensures Backed(s.table, s.entries) && CallServes(Called(s, key, ask, newRef, fetch, waiter), key, ask, fetch, waiter)
  {
    KeyStaysOrGoes(s, key);
    var pruned := Pruned(s.table, s.entries, s.clock, MAX_ENTRIES);
    PrunedTraits(pruned, s.entries, s.clock, MAX_ENTRIES - 1);
    hide Inv, Pruned, Missed, Answered, CallServes;
    if key in pruned {
      AnsweredServes(Touched(s.(table := pruned), pruned[key]), key, ask, fetch, waiter);
    } else {
      MissedServes(s, Pruned(pruned, s.entries, s.clock, MAX_ENTRIES - 1), key, ask, newRef, fetch, waiter);
    }
  }

  /** A fresh entry is found by the next call. */
  lemma FreshStays(s: State, key: Key)
    requires Inv(s) && key in s.table && s.table[key] in s.entries && !Dead(s.entries[s.table[key]], s.clock)
    ensures Backed(s.table, s.entries)
    ensures var pruned := Pruned(s.table, s.entries, s.clock, MAX_ENTRIES); key in pruned && pruned[key] == s.table[key]
  {
    InvBacked(s);
    SweptSmaller(s.table, s.entries, s.clock);
    assert key in Swept(s.table, s.entries, s.clock);
  }

  lemma MarkedIsFetch(s: State, key: Key)
    requires Inv(s) && key in s.table && s.entries[s.table[key]].inflight.Some?
    ensures Marked(s, key) in s.fetches && s.fetches[Marked(s, key)].ref == s.table[key]
  {
    assert EntrySound(s, s.table[key]);
  }

  lemma SameCooling(e: Entry, e': Entry, ask: Ask, now: Instant)
    requires e'.cooldowns == e.cooldowns && e'.value == e.value
    ensures CoolingDown(e', ask.missingKid, now) == CoolingDown(e, ask.missingKid, now)
  {
  }

  // ---------- stamps ----------

  /** An entry is marked with the fetch of it that was started last. */
  ghost predicate MarkIsLast(s: State, ref: Ref)
    requires ref in s.entries
  {
    var e := s.entries[ref];
    e.inflight.Some? ==>
      e.inflight.value in s.fetches && s.fetches[e.inflight.value].generation + 1 == e.nextGeneration && s.fetches[e.inflight.value].kind == e.kind
  }

  /** A fetch that succeeded is counted by its entry; the reply of any other is not there. */
  ghost predicate Counted(s: State, f: Request)
    requires f in s.fetches
  {
    var fetch := s.fetches[f];
    && (fetch.progress.Succeeded? ==> fetch.ref in s.entries && fetch.generation <= s.entries[fetch.ref].generation)
    && (!fetch.progress.Succeeded? ==> (fetch.ref, fetch.generation) !in s.replies)
  }

  ghost predicate Stamped(s: State) {
    && (forall r :: r in s.entries ==> MarkIsLast(s, r))
    && (forall f :: f in s.fetches ==> Counted(s, f))
  }

  lemma StampedAnywhere(s: State, n: State)
    requires Stamped(s) && n.entries == s.entries && n.fetches == s.fetches && n.replies == s.replies
    ensures Stamped(n)
  {
    forall r | r in n.entries ensures MarkIsLast(n, r) { assert MarkIsLast(s, r); }
    forall f | f in n.fetches ensures Counted(n, f) { assert Counted(s, f); }
  }

  /** An entry with the same generations, and the same mark or none. */
  lemma UpdateStamped(s: State, ref: Ref, e': Entry)
    requires Stamped(s) && ref in s.entries
    requires var e := s.entries[ref];
             e'.generation == e.generation && e'.nextGeneration == e.nextGeneration && e'.kind == e.kind && (e'.inflight == e.inflight || e'.inflight.None?)
    ensures Stamped(Update(s, ref, e'))
  {
    var n := Update(s, ref, e');
    forall r | r in n.entries ensures MarkIsLast(n, r) { assert MarkIsLast(s, r); }
    forall f | f in n.fetches ensures Counted(n, f) { assert Counted(s, f); }
  }

  lemma NewEntryStamped(s: State, ref: Ref, e: Entry)
    requires Stamped(s) && ref !in s.entries && e.inflight.None?
    requires forall f :: f in s.fetches ==> s.fetches[f].ref in s.entries
    ensures Stamped(Update(s, ref, e))
  {
    var n := Update(s, ref, e);
    forall r | r in n.entries ensures MarkIsLast(n, r) { if r != ref { assert MarkIsLast(s, r); } }
    forall f | f in n.fetches ensures Counted(n, f) { assert Counted(s, f); }
  }

  lemma StartedStamped(s: State, ref: Ref, ask: Ask, fetch: Request)
    requires Stamped(s) && ref in s.entries && fetch !in s.fetches
    requires (ref, s.entries[ref].nextGeneration) !in s.replies
    ensures Stamped(Started(s, ref, ask, fetch))
  {
    var n := Started(s, ref, ask, fetch);
    forall r | r in n.entries ensures MarkIsLast(n, r) { assert MarkIsLast(s, r); }
    forall f | f in n.fetches ensures Counted(n, f) { if f != fetch { assert Counted(s, f); } }
  }

  lemma AnsweredStamped(s: State, ref: Ref, ask: Ask, fetch: Request, waiter: Waiter)
    requires Stamped(s) && ref in s.entries && fetch !in s.fetches
    requires (ref, s.entries[ref].nextGeneration) !in s.replies
    ensures Stamped(Answered(s, ref, ask, fetch, waiter))
  {
    hide Stamped, Remembered, CoolingDown, Started, Update;
    var e := s.entries[ref];
    if ask.force && Moved(e, ask) && e.value.Some? {
      UpdateStamped(s, ref, e.(cooldowns := Remembered(e.cooldowns, e.value.value, ask.missingKid, s.clock)));
    } else if ask.force && CoolingDown(e, ask.missingKid, s.clock) {
    } else if !ask.force && e.value.Some? && e.expiresAt > s.clock {
    } else if e.inflight.Some? {
      StampedAnywhere(s, s.(waiting := s.waiting[waiter := Waiting(ref, e.inflight.value, e.kind, ask)]));
    } else {
      StartedStamped(s, ref, ask, fetch);
    }
  }

  lemma NextIsUnused(s: State, ref: Ref)
    requires Inv(s) && ref in s.entries
    ensures (ref, s.entries[ref].nextGeneration) !in s.replies
  {
    assert EntrySound(s, ref);
  }

  lemma TouchedStamped(s: State, ref: Ref)
    requires Stamped(s) && ref in s.entries
    ensures Stamped(Touched(s, ref))
  {
    hide Stamped;
    var e := s.entries[ref].(lastAccess := s.nextAccess);
    UpdateStamped(s, ref, e);
    StampedAnywhere(Update(s, ref, e), Touched(s, ref));
  }

  lemma FoundStamped(s: State, ref: Ref, ask: Ask, fetch: Request, waiter: Waiter)
    requires Stamped(s) && ref in s.entries && fetch !in s.fetches
    requires (ref, s.entries[ref].nextGeneration) !in s.replies
    ensures Stamped(Found(s, ref, ask, fetch, waiter))
  {
    hide Stamped, Answered, CoolingDown;
    TouchedStamped(s, ref);
    AnsweredStamped(Touched(s, ref), ref, ask, fetch, waiter);
  }

  lemma EnteredStamped(s: State, key: Key, newRef: Ref)
    requires Stamped(s) && newRef !in s.entries
    requires forall f :: f in s.fetches ==> s.fetches[f].ref in s.entries
    ensures Stamped(Entered(s, key, newRef))
  {
    hide Stamped;
    var e := NEW_ENTRY.(lastAccess := s.nextAccess + 1);
    NewEntryStamped(s, newRef, e);
    StampedAnywhere(Update(s, newRef, e), Entered(s, key, newRef));
  }

  lemma AddedStamped(s: State, key: Key, ask: Ask, newRef: Ref, fetch: Request, waiter: Waiter)
    requires Stamped(s) && newRef !in s.entries && fetch !in s.fetches
    requires forall f :: f in s.fetches ==> s.fetches[f].ref in s.entries
    requires (newRef, 1) !in s.replies
    ensures Stamped(Added(s, key, ask, newRef, fetch, waiter))
  {
    hide Stamped, Answered, CoolingDown;
    EnteredStamped(s, key, newRef);
    AnsweredStamped(Entered(s, key, newRef), newRef, ask, fetch, waiter);
  }

  lemma KeyStaysOrGoes(s: State, key: Key)
    requires Inv(s)
    ensures Backed(s.table, s.entries) && Backed(Pruned(s.table, s.entries, s.clock, MAX_ENTRIES), s.entries)
    ensures var pruned := Pruned(s.table, s.entries, s.clock, MAX_ENTRIES);
            key in pruned ==> key in s.table && pruned[key] == s.table[key]
  {
    InvBacked(s);
    PrunedTraits(s.table, s.entries, s.clock, MAX_ENTRIES);
    hide Pruned;
  }

  lemma CallStamped(s: State, key: Key, ask: Ask, newRef: Ref, fetch: Request, waiter: Waiter)
    requires Inv(s) && Stamped(s) && newRef !in s.entries && fetch !in s.fetches
    ensures Backed(s.table, s.entries) && Stamped(Called(s, key, ask, newRef, fetch, waiter))
  {
    KeyStaysOrGoes(s, key);
    hide Inv, Stamped, Pruned, Found, Missed;
    var pruned := Pruned(s.table, s.entries, s.clock, MAX_ENTRIES);
    if key in pruned {
      HitStamped(s, pruned, key, ask, fetch, waiter);
    } else {
      MissStamped(s, Pruned(pruned, s.entries, s.clock, MAX_ENTRIES - 1), key, ask, newRef, fetch, waiter);
    }
  }

  lemma HitStamped(s: State, table: map<Key, Ref>, key: Key, ask: Ask, fetch: Request, waiter: Waiter)
    requires Inv(s) && Stamped(s) && fetch !in s.fetches
    requires key in table && key in s.table && table[key] == s.table[key]
    ensures s.table[key] in s.entries && Stamped(Found(s.(table := table), s.table[key], ask, fetch, waiter))
  {
    InvBacked(s);
    var ref := s.table[key];
    NextIsUnused(s, ref);
    hide Inv, Stamped, Found, CoolingDown;
    StampedAnywhere(s, s.(table := table));
    FoundStamped(s.(table := table), ref, ask, fetch, waiter);
  }

  lemma ReplyIsBacked(s: State, ref: Ref)
    requires Inv(s) && ref !in s.entries
    ensures (ref, 1) !in s.replies
  {
  }

  lemma MissStamped(s: State, table: map<Key, Ref>, key: Key, ask: Ask, newRef: Ref, fetch: Request, waiter: Waiter)
    requires Inv(s) && Stamped(s) && newRef !in s.entries && fetch !in s.fetches
    ensures Stamped(Missed(s, table, key, ask, newRef, fetch, waiter))
  {
    hide Inv, Stamped, Added;
    forall f | f in s.fetches ensures s.fetches[f].ref in s.entries { FetchIsBacked(s, f); }
    ReplyIsBacked(s, newRef);
    StampedAnywhere(s, s.(table := table));
    StampedAnywhere(s, s.(table := table, nextAccess := s.nextAccess + 1));
    AddedStamped(s.(table := table), key, ask, newRef, fetch, waiter);
  }

  lemma SettleStamped(s: State, step: Step)
    requires Inv(s) && Stamped(s) && step.Settle? && Enabled(s, step)
    ensures Stamped(Next(s, step))
  {
    FetchIsBacked(s, step.fetch);
    SettledStamps(s, step.fetch, step.outcome);
    hide Inv, Settled, MarkIsLast, Counted;
    var n := Next(s, step);
    StampsLast(s, n);
    forall f | f in n.fetches ensures Counted(n, f) { SettleCounts(s, step, f); }
  }

  /** Marks, stamps and waiting callers are as before. */
  ghost predicate StampsKept(s: State, n: State) {
    && n.fetches.Keys == s.fetches.Keys && n.entries.Keys == s.entries.Keys && n.waiting == s.waiting
    && (forall f :: f in s.fetches ==> n.fetches[f].generation == s.fetches[f].generation && n.fetches[f].kind == s.fetches[f].kind)
    && (forall r :: r in s.entries ==> n.entries[r].inflight == s.entries[r].inflight
                                       && n.entries[r].nextGeneration == s.entries[r].nextGeneration && n.entries[r].kind == s.entries[r].kind)
  }

  lemma SettledStamps(s: State, fetch: Request, outcome: Option<Reply>)
    requires fetch in s.fetches && s.fetches[fetch].ref in s.entries
    ensures StampsKept(s, Settled(s, fetch, outcome))
  {
    hide Remembered;
  }

  lemma StampsLast(s: State, n: State)
    requires Stamped(s) && StampsKept(s, n)
    ensures forall r :: r in n.entries ==> MarkIsLast(n, r)
  {
    hide Counted;
    forall r | r in n.entries ensures MarkIsLast(n, r) { assert MarkIsLast(s, r); }
  }

  lemma SettleCounts(s: State, step: Step, f: Request)
    requires Inv(s) && Stamped(s) && step.Settle? && Enabled(s, step) && f in s.fetches
    ensures f in Next(s, step).fetches && Counted(Next(s, step), f)
  {
    FetchIsBacked(s, step.fetch);
    if f != step.fetch { FetchesApart(s, step.fetch, f); }
    assert Counted(s, f);
    hide Inv, Stamped;
    SettledCounts(s, step.fetch, step.outcome, f);
  }

  lemma FetchesApart(s: State, f: Request, g: Request)
    requires Inv(s) && f in s.fetches && g in s.fetches && f != g
    ensures s.fetches[f].ref == s.fetches[g].ref ==> s.fetches[f].generation != s.fetches[g].generation
  {
    assert FetchSound(s, f);
  }

  lemma SettledCounts(s: State, fetch: Request, outcome: Option<Reply>, f: Request)
    requires fetch in s.fetches && s.fetches[fetch].ref in s.entries && s.fetches[fetch].progress.Running? && f in s.fetches && Counted(s, f)
    requires f != fetch && s.fetches[f].ref == s.fetches[fetch].ref ==> s.fetches[f].generation != s.fetches[fetch].generation
    ensures f in Settled(s, fetch, outcome).fetches && Counted(Settled(s, fetch, outcome), f)
  {
    hide Remembered;
  }

  // ---------- callers that go on after a shared fetch ----------

  /** A caller that waited for a load starts a fetch of its own, without looking at the mark. */
  predicate StartsOwn(e: Entry, w: Waiting, now: Instant) {
    w.ask.force && w.kind.Load? && !Moved(e, w.ask) && !CoolingDown(e, w.ask.missingKid, now)
  }

  /** What it leaves of the cooldowns otherwise. */
  function SharedCooldowns(e: Entry, w: Waiting, shared: Reply, now: Instant): seq<Cooldown> {
    if !w.ask.force then e.cooldowns
    else if w.kind.Rollover? then Remembered(e.cooldowns, shared, w.ask.missingKid, now)
    else if Moved(e, w.ask) && e.value.Some? then Remembered(e.cooldowns, e.value.value, w.ask.missingKid, now)
    else e.cooldowns
  }

  lemma ResumedIs(s: State, w: Waiting, shared: Reply, newFetch: Request)
    requires w.ref in s.entries
    ensures var e := s.entries[w.ref];
            Resumed(s, w, shared, newFetch) ==
              if StartsOwn(e, w, s.clock) then Started(s, w.ref, w.ask, newFetch)
              else Update(s, w.ref, e.(cooldowns := SharedCooldowns(e, w, shared, s.clock)))
  {
    hide Remembered, CoolingDown, Started;
    assert s.entries[w.ref := s.entries[w.ref]] == s.entries;
  }

  lemma ResumedStamped(s: State, w: Waiting, shared: Reply, newFetch: Request)
    requires Stamped(s) && w.ref in s.entries && newFetch !in s.fetches
    requires (w.ref, s.entries[w.ref].nextGeneration) !in s.replies
    ensures Stamped(Resumed(s, w, shared, newFetch))
  {
    hide Stamped, Resumed, StartsOwn, SharedCooldowns;
    ResumedIs(s, w, shared, newFetch);
    var e := s.entries[w.ref];
    if StartsOwn(e, w, s.clock) {
      StartedStamped(s, w.ref, w.ask, newFetch);
    } else {
      UpdateStamped(s, w.ref, e.(cooldowns := SharedCooldowns(e, w, shared, s.clock)));
    }
  }

  lemma ReleaseStamped(s: State, step: Step)
    requires Inv(s) && Stamped(s) && step.Release? && Enabled(s, step)
    ensures Stamped(Next(s, step))
  {
    FetchIsBacked(s, step.fetch);
    hide Inv, Stamped;
    var ref := s.fetches[step.fetch].ref;
    if s.entries[ref].inflight == Some(step.fetch) {
      UpdateStamped(s, ref, s.entries[ref].(inflight := None));
    }
  }

  lemma ResumeStamped(s: State, step: Step)
    requires Inv(s) && Stamped(s) && step.Resume? && Enabled(s, step)
    ensures Stamped(Next(s, step))
  {
    hide Inv, Stamped, Resumed;
    WaiterIsBacked(s, step.waiter);
    var w := s.waiting[step.waiter];
    var gone := s.(waiting := s.waiting - {step.waiter});
    StampedAnywhere(s, gone);
    NextIsUnused(s, w.ref);
    if s.fetches[w.fetch].progress.Succeeded? {
      ResumedStamped(gone, w, s.fetches[w.fetch].progress.shared, step.newFetch);
    }
  }

  /** Every step keeps the stamps. */
  lemma StampedKeeps(s: State, step: Step)
    requires Inv(s) && Stamped(s) && Enabled(s, step)
    ensures Stamped(Next(s, step))
  {
    hide Called, Stamped, Settled, Resumed;
    match step
    case Call(key, ask, newRef, fetch, waiter) => CallStamped(s, key, ask, newRef, fetch, waiter);
    case Resume(waiter, newFetch) => ResumeStamped(s, step);
    case Settle(fetch, _) => SettleStamped(s, step);
    case Release(fetch) => ReleaseStamped(s, step);
    case Tick(to) => StampedAnywhere(s, Next(s, step));
  }

  // ---------- what is fixed when a fetch starts ----------

  /** A fetch belongs to its entry, and keeps its generation and its kind, for good. */
  ghost predicate FetchesFixed(s: State, n: State) {
    forall f :: f in s.fetches ==>
      f in n.fetches && n.fetches[f].ref == s.fetches[f].ref && n.fetches[f].generation == s.fetches[f].generation && n.fetches[f].kind == s.fetches[f].kind
  }

  lemma StartsFixed(s: State, n: State, fetch: Request)
    requires CallStarts(s, n, fetch) && fetch !in s.fetches
    ensures FetchesFixed(s, n)
  {
  }

  lemma SettledFixed(s: State, fetch: Request, outcome: Option<Reply>)
    requires fetch in s.fetches && s.fetches[fetch].ref in s.entries
    ensures FetchesFixed(s, Settled(s, fetch, outcome)) && Settled(s, fetch, outcome).waiting == s.waiting
  {
    hide Remembered;
  }

  lemma ResumedFixed(s: State, w: Waiting, shared: Reply, newFetch: Request)
    requires w.ref in s.entries && newFetch !in s.fetches
    ensures FetchesFixed(s, Resumed(s, w, shared, newFetch)) && Resumed(s, w, shared, newFetch).waiting == s.waiting
  {
    hide Resumed, StartsOwn, SharedCooldowns;
    ResumedIs(s, w, shared, newFetch);
  }

  lemma StepFixes(s: State, step: Step)
    requires Inv(s) && Enabled(s, step)
    ensures FetchesFixed(s, Next(s, step))
    ensures !step.Call? ==> forall w :: w in Next(s, step).waiting ==> w in s.waiting && Next(s, step).waiting[w] == s.waiting[w]
  {
    hide Called, Inv, Settled, Resumed;
    match step
    case Call(key, ask, newRef, fetch, waiter) =>
      InvBacked(s);
      CallTraits(s, key, ask, newRef, fetch, waiter);
      StartsFixed(s, Called(s, key, ask, newRef, fetch, waiter), fetch);
    case Settle(fetch, outcome) =>
      FetchIsBacked(s, fetch);
      SettledFixed(s, fetch, outcome);
    case Resume(waiter, newFetch) =>
      WaiterIsBacked(s, waiter);
      var w := s.waiting[waiter];
      if s.fetches[w.fetch].progress.Succeeded? {
        ResumedFixed(s.(waiting := s.waiting - {waiter}), w, s.fetches[w.fetch].progress.shared, newFetch);
      }
    case _ =>
  }
}
