/** Which callers may join a load of the Microsoft signing keys (loadMicrosoftJwks in
    src/auth-runtime.ts).  A caller that forces a refresh blindly, without a generation that it has
    seen, starts its own fetch after the load.  One such caller is alone when it does; a second one,
    or one that joins after the load has succeeded, starts beside another fetch. */
module OidcJoin {

  import opened OidcCache
  import opened OidcStamps
  import opened OidcQueue

  lemma {:induction false} Above(used: set<nat>) returns (bound: nat)
    ensures forall n :: n in used ==> n < bound
    decreases |used|
  {
    bound := 0;
    if used != {} {
      var n :| n in used;
      var rest := Above(used - {n});
      bound := if rest <= n then n + 1 else rest;
      assert forall m :: m in used ==> m == n || m in used - {n};
    }
  }

  // ---------- runs ----------

  lemma EmptyRun(q: Queue)
    requires Inv(q.cache)
    ensures OrderlyRun(q, []) && AdmittedRun(q, []) && Last(q, []) == q
  {
  }

  lemma RunPrepended(q: Queue, step: Step, rest: seq<Step>)
    requires Inv(q.cache) && Orderly(q, step) && Admitted(q, step)
    requires OrderlyRun(After(q, step), rest) && AdmittedRun(After(q, step), rest)
    ensures OrderlyRun(q, [step] + rest) && AdmittedRun(q, [step] + rest)
    ensures Last(q, [step] + rest) == Last(After(q, step), rest)
  {
    hide Inv, Orderly, Admitted, After;
    assert ([step] + rest)[1..] == rest;
  }

  lemma {:induction false} RunsAppended(q: Queue, a: seq<Step>, b: seq<Step>)
    requires OrderlyRun(q, a) && AdmittedRun(q, a) && OrderlyRun(Last(q, a), b) && AdmittedRun(Last(q, a), b)
    ensures OrderlyRun(q, a + b) && AdmittedRun(q, a + b) && Last(q, a + b) == Last(Last(q, a), b)
    decreases |a|
  {
    hide Inv, Orderly, Admitted, After;
    if a == [] {
      assert a + b == b;
    } else {
      RunsAppended(After(q, a[0]), a[1..], b);
      assert (a + b)[1..] == a[1..] + b;
    }
  }

  // ---------- the callers that wait for a load, one after the other ----------

  /** A load of the entry under the key has succeeded and been cleaned up, and callers that joined it
      are going on. */
  ghost predicate Group(q: Queue, key: Key, f: Request) {
    var s := q.cache;
    && Inv(s) && key in s.table && s.table[key] in s.entries && f in q.released && f in s.fetches
    && var ref := s.table[key];
       && s.fetches[f].ref == ref && s.fetches[f].progress.Succeeded?
       && s.entries[ref].generation == s.fetches[f].generation && s.entries[ref].value.Some?
       && (forall v :: InTurn(q, v) ==> s.waiting[v].fetch == f)
       && (forall v :: v in s.waiting && s.waiting[v].fetch == f ==> s.waiting[v].kind.Load?)
       && EarlyFirst(q) && forall r :: r in q.released ==> r in s.fetches
  }

  /** The entry is marked with another fetch, which is running and which nobody has joined. */
  ghost predicate Under(q: Queue, key: Key, g: Request) {
    var s := q.cache;
    && key in s.table && s.table[key] in s.entries && s.entries[s.table[key]].inflight == Some(g)
    && g in s.fetches && s.fetches[g].ref == s.table[key] && s.fetches[g].progress.Running?
    && (forall v :: v in s.waiting ==> s.waiting[v].fetch != g) && g !in q.released
  }

  /** Nothing that those ahead may do makes the caller's key id cool down. */
  ghost predicate Unspoiled(q: Queue, key: Key, f: Request, w: Waiter) {
    var s := q.cache;
    && Blind(s, w) && s.waiting[w].fetch == f && key in s.table && s.table[key] in s.entries
    && var e, kid := s.entries[s.table[key]], s.waiting[w].ask.missingKid;
       && !CoolingDown(e, kid, s.clock) && e.value.Some?
       && (kid.None? || kid.value in e.value.value.kids
           || forall v :: v in s.waiting && s.waiting[v].fetch == f && v < w && s.waiting[v].ask.force ==> s.waiting[v].ask.missingKid != kid)
  }

  lemma RememberedSpares(cooldowns: seq<Cooldown>, kid: Kid, at: Instant, x: Cooldown)
    requires x in LiveCooldowns(cooldowns, kid, at)
    ensures x in cooldowns
  {
  }

  /** Remembering another key id, or one that was found, makes nothing new cool down. */
  lemma StaysWarm(e: Entry, reply: Reply, missing: Option<Kid>, kid: Option<Kid>, now: Instant)
    requires !CoolingDown(e, kid, now) && e.value.Some? && (kid.None? || missing != kid || kid.value in reply.kids)
    ensures !CoolingDown(e.(cooldowns := Remembered(e.cooldowns, reply, missing, now)), kid, now)
  {
    if missing.Some? {
      var left := Remembered(e.cooldowns, reply, missing, now);
      forall i | 0 <= i < |left| && kid == Some(left[i].kid) ensures left[i].until <= now {
        var live := LiveCooldowns(e.cooldowns, missing.value, now);
        if left[i] in live { RememberedSpares(e.cooldowns, missing.value, now, left[i]); }
      }
    }
  }

  lemma FirstMayGo(q: Queue, key: Key, f: Request, v: Waiter, newFetch: Request)
    requires Group(q, key, f) && First(q, v) && q.cache.waiting[v].fetch == f && newFetch !in q.cache.fetches
    ensures Orderly(q, Resume(v, newFetch)) && Admitted(q, Resume(v, newFetch))
  {
    if Draining(q) {
      var w :| InTurn(q, w);
      assert q.cache.waiting[w].fetch == f;
    }
    hide Inv;
  }

  /** What changes when a caller goes on quietly. */
  lemma QuietGroup(q: Queue, m: Queue, key: Key, f: Request, v: Waiter)
    requires Group(q, key, f) && Inv(m.cache) && v in q.cache.waiting && q.cache.waiting[v].fetch == f && GoesOnQuietly(q.cache, m.cache, v)
    requires m.released == q.released && m.early == q.early - {v}
    ensures Group(m, key, f)
  {
    hide Inv, SharedCooldowns;
    FewerEarlyFirst(q, m);
    hide EarlyFirst;
    forall w | InTurn(m, w) ensures InTurn(q, w) { }
  }

  lemma QuietUnder(q: Queue, m: Queue, key: Key, v: Waiter, g: Request)
    requires Under(q, key, g) && GoesOnQuietly(q.cache, m.cache, v) && m.released == q.released
    ensures Under(m, key, g)
  {
    hide SharedCooldowns;
  }

  lemma QuietUnspoiled(q: Queue, m: Queue, key: Key, f: Request, v: Waiter, w: Waiter)
    requires Group(q, key, f) && v in q.cache.waiting && q.cache.waiting[v].fetch == f && GoesOnQuietly(q.cache, m.cache, v)
    requires Unspoiled(q, key, f, w) && v < w
    ensures Unspoiled(m, key, f, w)
  {
    var s := q.cache;
    WaiterIsBacked(s, v);
    var x, e := s.waiting[v], s.entries[s.table[key]];
    assert x.ref == s.table[key];
    hide Inv, EarlyFirst, CoolingDown;
    if x.ask.force && Moved(e, x.ask) {
      StaysWarm(e, e.value.value, x.ask.missingKid, s.waiting[w].ask.missingKid, s.clock);
    }
  }

  lemma StartingGroup(q: Queue, m: Queue, key: Key, f: Request, v: Waiter, g: Request)
    requires Group(q, key, f) && Inv(m.cache) && v in q.cache.waiting && q.cache.waiting[v].fetch == f && GoesOnStarting(q.cache, m.cache, v, g)
    requires q.cache.waiting[v].ref == q.cache.table[key] && m.released == q.released && m.early == q.early - {v}
    ensures Group(m, key, f)
  {
    hide Inv;
    FewerEarlyFirst(q, m);
    forall w | InTurn(m, w) ensures InTurn(q, w) { }
  }

  lemma StartingUnder(q: Queue, m: Queue, key: Key, v: Waiter, g: Request)
    requires v in q.cache.waiting && key in q.cache.table && q.cache.waiting[v].ref == q.cache.table[key] && GoesOnStarting(q.cache, m.cache, v, g)
    requires forall w :: w in q.cache.waiting ==> q.cache.waiting[w].fetch in q.cache.fetches
    requires m.released == q.released && g !in q.released
    ensures Under(m, key, g)
  {
  }

  lemma WaitersOf(q: Queue, key: Key, f: Request)
    requires Group(q, key, f)
    ensures Inv(q.cache) && forall w :: w in q.cache.waiting ==> q.cache.waiting[w].fetch in q.cache.fetches
    ensures key in q.cache.table && q.cache.table[key] in q.cache.entries && forall w :: w in OfLoad(q.cache, f) ==> q.cache.waiting[w].ref == q.cache.table[key]
  {
    forall w | w in q.cache.waiting ensures q.cache.waiting[w].fetch in q.cache.fetches { WaiterIsBacked(q.cache, w); }
  }

  lemma StartingUnspoiled(q: Queue, m: Queue, key: Key, f: Request, v: Waiter, g: Request, w: Waiter)
    requires Group(q, key, f) && v in q.cache.waiting && q.cache.waiting[v].fetch == f && GoesOnStarting(q.cache, m.cache, v, g)
    requires Unspoiled(q, key, f, w) && v < w
    ensures Unspoiled(m, key, f, w)
  {
    WaiterIsBacked(q.cache, v);
    assert q.cache.waiting[v].ref == q.cache.table[key];
    hide Inv, EarlyFirst;
  }

  /** A blind caller whose key id does not cool down starts a fetch when its turn comes. */
  lemma UnspoiledStarts(q: Queue, key: Key, f: Request, w: Waiter)
    requires Group(q, key, f) && Unspoiled(q, key, f, w)
    ensures StartsNow(q.cache, w)
  {
    WaiterIsBacked(q.cache, w);
    assert q.cache.waiting[w].ref == q.cache.table[key];
    hide Inv, EarlyFirst, CoolingDown;
  }

  /** Two fetches of the entry under the key are running, and it is marked with the second. */
  ghost predicate Beside(q: Queue, key: Key, g: Request, h: Request) {
    && Under(q, key, h) && g != h && g in q.cache.fetches && q.cache.fetches[g].ref == q.cache.table[key] && q.cache.fetches[g].progress.Running?
  }

  lemma StartedBeside(q: Queue, m: Queue, key: Key, v: Waiter, g: Request, h: Request)
    requires Under(q, key, g) && Under(m, key, h) && GoesOnStarting(q.cache, m.cache, v, h)
    ensures Beside(m, key, g, h)
  {
  }

  /** The caller will find a fetch under way, or bring one about: somebody blind is ahead of it, or it
      joined too late to go on with the others. */
  ghost predicate Hope(q: Queue, key: Key, f: Request, w: Waiter) {
    || (exists g :: Under(q, key, g))
    || (&& key in q.cache.table && q.cache.table[key] in q.cache.entries && q.cache.entries[q.cache.table[key]].inflight.None?
        && ((w !in q.early && q.cache.entries[q.cache.table[key]].expiresAt > q.cache.clock)
            || exists v: Waiter :: v < w && Unspoiled(q, key, f, v)))
  }

  function OfLoad(s: State, f: Request): set<Waiter> {
    set v | v in s.waiting && s.waiting[v].fetch == f
  }

  lemma {:induction false} Least(candidates: set<nat>) returns (m: nat)
    requires candidates != {}
    ensures m in candidates && forall c :: c in candidates ==> m <= c
    decreases |candidates|
  {
    m :| m in candidates;
    var rest := candidates - {m};
    if rest != {} {
      var r := Least(rest);
      assert forall c :: c in candidates ==> c == m || c in rest;
      if r < m { m := r; }
    }
  }

  lemma FewerOfLoad(s: State, n: State, f: Request, v: Waiter)
    requires v in s.waiting && s.waiting[v].fetch == f && n.waiting == s.waiting - {v}
    ensures |OfLoad(n, f)| < |OfLoad(s, f)|
  {
    assert OfLoad(n, f) == OfLoad(s, f) - {v};
    assert v in OfLoad(s, f);
  }

  /** One caller of the load goes on. */
  ghost predicate WentOn(q: Queue, m: Queue, key: Key, f: Request) {
    Group(m, key, f) && m.cache.table == q.cache.table && |OfLoad(m.cache, f)| < |OfLoad(q.cache, f)|
  }

  lemma GoOn(q: Queue, key: Key, f: Request, v: Waiter) returns (step: Step)
    requires Group(q, key, f) && First(q, v) && q.cache.waiting[v].fetch == f
    ensures step.Resume? && step.waiter == v && Orderly(q, step) && Admitted(q, step) && WentOn(q, After(q, step), key, f)
    ensures StartsNow(q.cache, v) ==> GoesOnStarting(q.cache, After(q, step).cache, v, step.newFetch) && Under(After(q, step), key, step.newFetch)
    ensures !StartsNow(q.cache, v) ==> GoesOnQuietly(q.cache, After(q, step).cache, v)
    ensures After(q, step).released == q.released && After(q, step).early == q.early - {v}
  {
    var newFetch := Above(q.cache.fetches.Keys);
    step := Resume(v, newFetch);
    FirstMayGo(q, key, f, v, newFetch);
    NextKeeps(q.cache, step);
    ResumeEffect(q.cache, step);
    WaitersOf(q, key, f);
    assert v in OfLoad(q.cache, f) && newFetch !in q.released;
    LeavesAlone(q.cache, After(q, step).cache, v, newFetch);
    FewerOfLoad(q.cache, After(q, step).cache, f, v);
    var m := After(q, step);
    hide Inv, Next, GoesOnQuietly, GoesOnStarting, StartsOwn, EarlyFirst, Under, Group;
    if StartsNow(q.cache, v) {
      StartingGroup(q, m, key, f, v, newFetch);
      StartingUnder(q, m, key, v, newFetch);
    } else {
      QuietGroup(q, m, key, f, v);
    }
  }

  // ---------- a refresh that comes first ----------

  /** A caller that has just read the generation, and asks for no key id. */
  function Refresh(s: State, key: Key): Ask
    requires key in s.table && s.table[key] in s.entries
  {
    Ask(true, Some(s.entries[s.table[key]].generation), None)
  }

  lemma RefreshFound(s: State, key: Key, newRef: Ref, g: Request, other: Waiter)
    requires Inv(s) && key in s.table && s.table[key] in s.entries && g !in s.fetches
    requires var e := s.entries[s.table[key]]; e.value.Some? && e.expiresAt > s.clock && e.inflight.None?
    ensures var n := Called(s, key, Refresh(s, key), newRef, g, other); var e := s.entries[s.table[key]];
            && key in n.table && n.table[key] == s.table[key] && n.clock == s.clock && n.waiting == s.waiting
            && n.fetches == s.fetches[g := Fetch(s.table[key], e.nextGeneration, Rollover, None, Running)]
            && n.table[key] in n.entries
            && n.entries[n.table[key]] == e.(lastAccess := s.nextAccess, nextGeneration := e.nextGeneration + 1, inflight := Some(g), kind := Rollover)
  {
    hide Inv, Pruned, Missed;
    FreshStays(s, key);
    assert !CoolingDown(s.entries[s.table[key]], None, s.clock);
  }

  lemma NobodyInTurn(q: Queue, key: Key, f: Request, w: Waiter)
    requires Group(q, key, f) && First(q, w) && q.cache.waiting[w].fetch == f && w !in q.early
    ensures !Draining(q)
  {
    hide Inv;
    forall v ensures !InTurn(q, v) { }
  }

  /** What the refresh changes for the callers of the load. */
  ghost predicate Refreshed(q: Queue, m: Queue, key: Key, g: Request) {
    var s, n := q.cache, m.cache;
    && key in s.table && s.table[key] in s.entries && key in n.table && n.table[key] == s.table[key] && n.clock == s.clock && n.waiting == s.waiting
    && m.released == q.released && m.early == q.early && g !in s.fetches
    && var e := s.entries[s.table[key]];
       && n.fetches == s.fetches[g := Fetch(s.table[key], e.nextGeneration, Rollover, None, Running)]
       && n.table[key] in n.entries
       && n.entries[n.table[key]] == e.(lastAccess := s.nextAccess, nextGeneration := e.nextGeneration + 1, inflight := Some(g), kind := Rollover)
  }

  lemma RefreshedGroup(q: Queue, m: Queue, key: Key, f: Request, g: Request, w: Waiter)
    requires Group(q, key, f) && Inv(m.cache) && Refreshed(q, m, key, g) && First(q, w) && Unspoiled(q, key, f, w)
    ensures Group(m, key, f) && First(m, w) && Unspoiled(m, key, f, w)
  {
    hide Inv;
    forall v ensures InTurn(m, v) == InTurn(q, v) { }
    FewerEarlyFirst(q, m);
    SameCooling(q.cache.entries[q.cache.table[key]], m.cache.entries[m.cache.table[key]], q.cache.waiting[w].ask, q.cache.clock);
  }

  lemma RefreshedUnder(q: Queue, m: Queue, key: Key, f: Request, g: Request)
    requires Group(q, key, f) && Refreshed(q, m, key, g)
    ensures Under(m, key, g)
  {
    WaitersOf(q, key, f);
    hide Inv, EarlyFirst;
  }

  lemma RefreshRuns(q: Queue, key: Key, newRef: Ref, g: Request, other: Waiter)
    requires Inv(q.cache) && !Draining(q) && key in q.cache.table && q.cache.table[key] in q.cache.entries
    requires newRef !in q.cache.entries && g !in q.cache.fetches && forall v :: v in q.cache.waiting ==> v < other
    requires var e := q.cache.entries[q.cache.table[key]]; e.value.Some? && e.expiresAt > q.cache.clock && e.inflight.None?
    ensures var step := Call(key, Refresh(q.cache, key), newRef, g, other);
            Orderly(q, step) && Admitted(q, step) && Inv(After(q, step).cache) && Refreshed(q, After(q, step), key, g)
  {
    hide Inv, Called, Refreshed, Enabled;
    RefreshMayCome(q, key, newRef, g, other);
    NextKeeps(q.cache, Call(key, Refresh(q.cache, key), newRef, g, other));
    RefreshMeans(q, key, newRef, g, other);
  }

  lemma RefreshMayCome(q: Queue, key: Key, newRef: Ref, g: Request, other: Waiter)
    requires Inv(q.cache) && !Draining(q) && key in q.cache.table && q.cache.table[key] in q.cache.entries
    requires newRef !in q.cache.entries && g !in q.cache.fetches && forall v :: v in q.cache.waiting ==> v < other
    requires q.cache.entries[q.cache.table[key]].inflight.None?
    ensures var step := Call(key, Refresh(q.cache, key), newRef, g, other);
            Enabled(q.cache, step) && Orderly(q, step) && Admitted(q, step) && other !in q.cache.waiting
  {
    InvBacked(q.cache);
    hide Inv, Draining;
  }

  lemma RefreshMeans(q: Queue, key: Key, newRef: Ref, g: Request, other: Waiter)
    requires Inv(q.cache) && key in q.cache.table && q.cache.table[key] in q.cache.entries && g !in q.cache.fetches && other !in q.cache.waiting
    requires var step := Call(key, Refresh(q.cache, key), newRef, g, other); Orderly(q, step)
    requires var e := q.cache.entries[q.cache.table[key]]; e.value.Some? && e.expiresAt > q.cache.clock && e.inflight.None?
    ensures Refreshed(q, After(q, Call(key, Refresh(q.cache, key), newRef, g, other)), key, g)
  {
    RefreshFound(q.cache, key, newRef, g, other);
    hide Inv, Called, Draining;
  }

  lemma FreshFacts(q: Queue, key: Key, f: Request, w: Waiter)
    requires Group(q, key, f) && Unspoiled(q, key, f, w)
    ensures Inv(q.cache) && key in q.cache.table && q.cache.table[key] in q.cache.entries && q.cache.entries[q.cache.table[key]].value.Some?
    ensures w in q.cache.waiting && q.cache.waiting[w].fetch == f
  {
  }

  /** A fresh caller refreshes the entry before a caller that joined too late goes on. */
  lemma RefreshFirst(q: Queue, key: Key, f: Request, w: Waiter) returns (step: Step)
    requires Group(q, key, f) && First(q, w) && Unspoiled(q, key, f, w) && w !in q.early
    requires key in q.cache.table && q.cache.table[key] in q.cache.entries
    requires var e := q.cache.entries[q.cache.table[key]]; e.inflight.None? && e.expiresAt > q.cache.clock
    ensures step.Call? && Inv(q.cache) && Orderly(q, step) && Admitted(q, step) && Refreshed(q, After(q, step), key, step.fetch)
    ensures var m := After(q, step); Group(m, key, f) && First(m, w) && Unspoiled(m, key, f, w) && Under(m, key, step.fetch)
  {
    hide Inv, Group, Unspoiled, Under, Draining, Orderly, Admitted, After, Refreshed, First;
    FreshFacts(q, key, f, w);
    NobodyInTurn(q, key, f, w);
    var newRef := Above(q.cache.entries.Keys);
    var g := Above(q.cache.fetches.Keys);
    var other := Above(q.cache.waiting.Keys);
    step := Call(key, Refresh(q.cache, key), newRef, g, other);
    RefreshRuns(q, key, newRef, g, other);
    RefreshedGroup(q, After(q, step), key, f, g, w);
    RefreshedUnder(q, After(q, step), key, f, g);
  }

  // ---------- two fetches of one entry ----------

  lemma NextInLine(q: Queue, key: Key, f: Request, w: Waiter) returns (v: Waiter)
    requires w in q.cache.waiting && q.cache.waiting[w].fetch == f
    ensures First(q, v) && q.cache.waiting[v].fetch == f && v <= w
  {
    assert w in OfLoad(q.cache, f);
    v := Least(OfLoad(q.cache, f));
    assert v in OfLoad(q.cache, f);
    forall u | u in q.cache.waiting && q.cache.waiting[u].fetch == f ensures v <= u { assert u in OfLoad(q.cache, f); }
  }

  lemma QuietUnmarked(q: Queue, m: Queue, key: Key, f: Request, v: Waiter)
    requires Group(q, key, f) && GoesOnQuietly(q.cache, m.cache, v) && q.cache.entries[q.cache.table[key]].inflight.None?
    ensures key in m.cache.table && m.cache.table[key] in m.cache.entries && m.cache.entries[m.cache.table[key]].inflight.None?
    ensures m.cache.entries[m.cache.table[key]].expiresAt == q.cache.entries[q.cache.table[key]].expiresAt && m.cache.clock == q.cache.clock
  {
    hide Inv, SharedCooldowns, EarlyFirst;
  }

  /** When one caller ahead goes on quietly, hope stays. */
  lemma HopeStays(q: Queue, m: Queue, key: Key, f: Request, v: Waiter, w: Waiter)
    requires Group(q, key, f) && First(q, v) && q.cache.waiting[v].fetch == f && v < w && Hope(q, key, f, w)
    requires !StartsNow(q.cache, v) && GoesOnQuietly(q.cache, m.cache, v) && m.released == q.released && m.early == q.early - {v}
    ensures Hope(m, key, f, w)
  {
    if g :| Under(q, key, g) {
      QuietUnder(q, m, key, v, g);
    } else if u: Waiter :| u < w && Unspoiled(q, key, f, u) {
      if u == v { UnspoiledStarts(q, key, f, u); }
      QuietUnspoiled(q, m, key, f, v, u);
      QuietUnmarked(q, m, key, f, v);
    } else {
      QuietUnmarked(q, m, key, f, v);
    }
  }

  /** The caller's turn has come. */
  lemma TurnBeside(q: Queue, key: Key, f: Request, w: Waiter) returns (steps: seq<Step>, g: Request, h: Request)
    requires Group(q, key, f) && First(q, w) && Unspoiled(q, key, f, w) && Hope(q, key, f, w)
    ensures OrderlyRun(q, steps) && AdmittedRun(q, steps)
    ensures var m := Last(q, steps); Group(m, key, f) && Beside(m, key, g, h) && key in q.cache.table && m.cache.table[key] == q.cache.table[key]
  {
    hide Inv, Group, Under, StartsNow, GoesOnStarting, GoesOnQuietly, Orderly, Admitted, After, Unspoiled;
    FreshFacts(q, key, f, w);
    if exists g :: Under(q, key, g) {
      g :| Under(q, key, g);
      steps, h := StartOwn(q, key, f, w, g);
    } else {
      NobodyAhead(q, key, f, w);
      var call := RefreshFirst(q, key, f, w);
      g := call.fetch;
      var m := After(q, call);
      var rest;
      rest, h := StartOwn(m, key, f, w, g);
      RunPrepended(q, call, rest);
      steps := [call] + rest;
      assert m.cache.table[key] == q.cache.table[key] by { RefreshedTable(q, m, key, g); }
    }
  }

  lemma RefreshedTable(q: Queue, m: Queue, key: Key, g: Request)
    requires Refreshed(q, m, key, g)
    ensures key in q.cache.table && key in m.cache.table && m.cache.table[key] == q.cache.table[key]
  {
  }

  lemma NobodyAhead(q: Queue, key: Key, f: Request, w: Waiter)
    requires First(q, w) && q.cache.waiting[w].fetch == f && Hope(q, key, f, w) && !exists g :: Under(q, key, g)
    ensures key in q.cache.table && q.cache.table[key] in q.cache.entries
    ensures w !in q.early && q.cache.entries[q.cache.table[key]].inflight.None? && q.cache.entries[q.cache.table[key]].expiresAt > q.cache.clock
  {
    forall v: Waiter | v < w ensures !Unspoiled(q, key, f, v) { }
  }

  lemma StartOwn(q: Queue, key: Key, f: Request, v: Waiter, g: Request) returns (steps: seq<Step>, h: Request)
    requires Group(q, key, f) && First(q, v) && q.cache.waiting[v].fetch == f && (StartsNow(q.cache, v) || Unspoiled(q, key, f, v)) && Under(q, key, g)
    ensures OrderlyRun(q, steps) && AdmittedRun(q, steps)
    ensures var m := Last(q, steps); Group(m, key, f) && Beside(m, key, g, h) && key in q.cache.table && m.cache.table[key] == q.cache.table[key]
  {
    hide Group, Under, StartsNow, GoesOnStarting, Orderly, Admitted, After, Unspoiled, Beside;
    WaitersOf(q, key, f);
    if !StartsNow(q.cache, v) { UnspoiledStarts(q, key, f, v); }
    var step := GoOn(q, key, f, v);
    h := step.newFetch;
    var m := After(q, step);
    StartedBeside(q, m, key, v, g, h);
    WaitersOf(m, key, f);
    EmptyRun(m);
    RunPrepended(q, step, []);
    steps := [step] + [];
  }

  /** Two fetches of the entry come to run beside each other. */
  lemma {:induction false} ComesBeside(q: Queue, key: Key, f: Request, w: Waiter) returns (steps: seq<Step>, g: Request, h: Request)
    requires Group(q, key, f) && Unspoiled(q, key, f, w) && Hope(q, key, f, w)
    ensures OrderlyRun(q, steps) && AdmittedRun(q, steps)
    ensures var m := Last(q, steps); Group(m, key, f) && Beside(m, key, g, h) && key in q.cache.table && m.cache.table[key] == q.cache.table[key]
    decreases |OfLoad(q.cache, f)|
  {
    hide Inv, Group, Under, StartsNow, GoesOnStarting, GoesOnQuietly, Orderly, Admitted, After, Unspoiled, Hope, Beside, OfLoad;
    FreshFacts(q, key, f, w);
    var v := NextInLine(q, key, f, w);
    if v == w {
      steps, g, h := TurnBeside(q, key, f, w);
      return;
    }
    if StartsNow(q.cache, v) && exists g :: Under(q, key, g) {
      g :| Under(q, key, g);
      steps, h := StartOwn(q, key, f, v, g);
      return;
    }
    var step := GoOn(q, key, f, v);
    var m := After(q, step);
    if StartsNow(q.cache, v) {
      StartingUnspoiled(q, m, key, f, v, step.newFetch, w);
      UnderHopes(m, key, f, w, step.newFetch);
    } else {
      HopeStays(q, m, key, f, v, w);
      QuietUnspoiled(q, m, key, f, v, w);
    }
    var rest;
    rest, g, h := ComesBeside(m, key, f, w);
    RunPrepended(q, step, rest);
    steps := [step] + rest;
  }

  lemma UnderHopes(q: Queue, key: Key, f: Request, w: Waiter, g: Request)
    requires Under(q, key, g)
    ensures Hope(q, key, f, w)
  {
  }

  // ---------- joining a load ----------

  ghost predicate JoinedBy(s: State, n: State, key: Key, ask: Ask, waiter: Waiter)
    requires Backed(s.table, s.entries) && key in s.table && s.entries[s.table[key]].inflight.Some?
  {
    && key in n.table && n.table[key] == s.table[key] && n.clock == s.clock && n.fetches == s.fetches
    && n.waiting == s.waiting[waiter := Waiting(s.table[key], Marked(s, key), Load, ask)]
    && n.entries == s.entries[s.table[key] := s.entries[s.table[key]].(lastAccess := s.nextAccess)]
  }

  lemma MarkedFound(s: State, key: Key)
    requires Inv(s) && key in s.table && s.table[key] in s.entries && s.entries[s.table[key]].inflight.Some?
    ensures Backed(s.table, s.entries)
    ensures var pruned := Pruned(s.table, s.entries, s.clock, MAX_ENTRIES); key in pruned && pruned[key] == s.table[key]
  {
    InvBacked(s);
    PrunedTraits(s.table, s.entries, s.clock, MAX_ENTRIES);
  }

  lemma JoinedIsThere(s: State, key: Key, ask: Ask)
    requires Backed(s.table, s.entries) && JoinsLoad(s, key, ask)
    ensures s.table[key] in s.entries
  {
  }

  lemma LoadJoined(s: State, key: Key, ask: Ask, newRef: Ref, fetch: Request, waiter: Waiter)
    requires Inv(s)
    requires JoinsLoad(s, key, ask)
    ensures JoinedBy(s, Called(s, key, ask, newRef, fetch, waiter), key, ask, waiter)
  {
    hide Inv, Pruned, Missed, Backed;
    InvBacked(s);
    JoinedIsThere(s, key, ask);
    MarkedFound(s, key);
    var e := s.entries[s.table[key]];
    SameCooling(e, e.(lastAccess := s.nextAccess), ask, s.clock);
  }

  /** The state after a call that joins a load, as far as the callers of the load are concerned. */
  ghost predicate Pending(m: Queue, key: Key, f: Request) {
    var c := m.cache;
    && Inv(c) && Stamped(c) && SingleFlight(c) && EarlyFirst(m) && !Draining(m)
    && key in c.table && c.table[key] in c.entries && c.entries[c.table[key]].inflight == Some(f)
    && f in c.fetches && c.fetches[f].ref == c.table[key] && c.fetches[f].kind.Load? && f !in m.released
    && (forall r :: r in m.released ==> r in c.fetches)
    && (forall v :: v in c.waiting && c.waiting[v].fetch == f ==> c.waiting[v].kind.Load?)
  }

  lemma JoinMarks(s: State, key: Key, ask: Ask)
    requires Inv(s) && Stamped(s) && JoinsLoad(s, key, ask)
    ensures key in s.table && s.table[key] in s.entries && s.entries[s.table[key]].inflight == Some(Marked(s, key))
    ensures Marked(s, key) in s.fetches && s.fetches[Marked(s, key)].ref == s.table[key] && s.fetches[Marked(s, key)].kind.Load?
  {
    MarkedIsFetch(s, key);
    assert MarkIsLast(s, s.table[key]);
  }

  /** The call has joined, behind everybody who waits already. */
  ghost predicate JoinedLast(q: Queue, m: Queue, call: Step)
    requires call.Call? && Backed(q.cache.table, q.cache.entries) && call.key in q.cache.table && q.cache.entries[q.cache.table[call.key]].inflight.Some?
  {
    && JoinedBy(q.cache, m.cache, call.key, call.ask, call.waiter) && Pending(m, call.key, Marked(q.cache, call.key))
    && m.released == q.released && (forall v :: v in q.cache.waiting ==> (v in m.early <==> v in q.early) && v < call.waiter)
    && (call.waiter in m.early <==> Marked(q.cache, call.key) in q.cache.fetches && q.cache.fetches[Marked(q.cache, call.key)].progress.Running?)
  }

  lemma JoinWaits(q: Queue, call: Step)
    requires InOrder(q) && call.Call? && Orderly(q, call) && JoinsLoad(q.cache, call.key, call.ask)
    ensures JoinedLast(q, After(q, call), call)
  {
    hide InOrder, Inv, Orderly, Called, JoinedBy, Pending, Joined, After, JoinsLoad, Stamped, SingleFlight, Cleaned, EarlyFirst, Backed;
    InOrderFlies(q);
    CallKeepsRest(q, call);
    BackedJoin(q, call);
    LoadJoined(q.cache, call.key, call.ask, call.newRef, call.fetch, call.waiter);
    CallIsCalled(q, call);
    KindsOfLoad(q, Marked(q.cache, call.key));
    JoinNumbered(q, After(q, call), call);
    JoinPending(q, After(q, call), call);
  }

  lemma BackedJoin(q: Queue, call: Step)
    requires InOrder(q) && call.Call? && Backed(q.cache.table, q.cache.entries) && JoinsLoad(q.cache, call.key, call.ask)
    ensures call.key in q.cache.table && q.cache.table[call.key] in q.cache.entries && q.cache.entries[q.cache.table[call.key]].inflight.Some?
    ensures var f := Marked(q.cache, call.key); f in q.cache.fetches && q.cache.fetches[f].ref == q.cache.table[call.key] && q.cache.fetches[f].kind.Load?
    ensures Marked(q.cache, call.key) !in q.released && q.early <= q.cache.waiting.Keys
  {
    JoinMarks(q.cache, call.key, call.ask);
    hide Inv, Stamped, SingleFlight, EarlyFirst, OneInTurn, OneBlind, WaiterInOrder;
  }

  lemma KindsOfLoad(q: Queue, f: Request)
    requires InOrder(q) && f in q.cache.fetches && q.cache.fetches[f].kind.Load?
    ensures forall v :: v in q.cache.waiting && q.cache.waiting[v].fetch == f ==> q.cache.waiting[v].kind.Load?
  {
    forall v | v in q.cache.waiting && q.cache.waiting[v].fetch == f ensures q.cache.waiting[v].kind.Load? { assert WaiterInOrder(q, v); }
  }

  lemma JoinPending(q: Queue, m: Queue, call: Step)
    requires Backed(q.cache.table, q.cache.entries) && call.Call? && Orderly(q, call)
    requires call.key in q.cache.table && q.cache.table[call.key] in q.cache.entries && q.cache.entries[q.cache.table[call.key]].inflight.Some?
    requires Inv(m.cache) && Stamped(m.cache) && SingleFlight(m.cache) && Cleaned(m) && EarlyFirst(m)
    requires m.released == q.released && m.early <= q.early + {call.waiter} && q.early <= q.cache.waiting.Keys
    requires var f := Marked(q.cache, call.key);
             && f in q.cache.fetches && q.cache.fetches[f].ref == q.cache.table[call.key] && q.cache.fetches[f].kind.Load?
             && f !in q.released && (forall v :: v in q.cache.waiting && q.cache.waiting[v].fetch == f ==> q.cache.waiting[v].kind.Load?)
    requires JoinedBy(q.cache, m.cache, call.key, call.ask, call.waiter)
    ensures Pending(m, call.key, Marked(q.cache, call.key))
  {
    hide Inv, Stamped, SingleFlight, EarlyFirst;
    forall v ensures !InTurn(m, v) { assert !InTurn(q, v); }
  }

  lemma JoinNumbered(q: Queue, m: Queue, call: Step)
    requires Inv(q.cache) && call.Call? && Orderly(q, call) && Joined(q, m, call) && q.early <= q.cache.waiting.Keys
    requires call.key in q.cache.table && Backed(q.cache.table, q.cache.entries) && q.cache.entries[q.cache.table[call.key]].inflight.Some?
    requires JoinedBy(q.cache, m.cache, call.key, call.ask, call.waiter)
    ensures forall v :: v in q.cache.waiting ==> (v in m.early <==> v in q.early) && v < call.waiter
    ensures m.released == q.released && m.early <= q.early + {call.waiter}
    ensures call.waiter in m.early <==> Marked(q.cache, call.key) in q.cache.fetches && q.cache.fetches[Marked(q.cache, call.key)].progress.Running?
  {
    hide Inv, CallJoins, CallLeaves, FetchesStay;
  }

  // ---------- the load ends and is cleaned up ----------

  /** A reply that lists every key id that somebody asks for. */
  function Complete(s: State): Reply {
    Reply(set v | v in s.waiting && s.waiting[v].ask.missingKid.Some? :: s.waiting[v].ask.missingKid.value, "")
  }

  /** The load has succeeded, and its cleanup is to come. */
  ghost predicate Landed(m: Queue, key: Key, f: Request) {
    && Pending(m, key, f) && m.cache.fetches[f].progress.Succeeded?
    && m.cache.entries[m.cache.table[key]].generation == m.cache.fetches[f].generation && m.cache.entries[m.cache.table[key]].value.Some?
  }

  lemma SettledLoad(c: State, f: Request, reply: Reply)
    requires f in c.fetches && c.fetches[f].ref in c.entries && c.fetches[f].kind.Load? && c.entries[c.fetches[f].ref].generation <= c.fetches[f].generation
    ensures Settled(c, f, Some(reply)).entries[c.fetches[f].ref] ==
            c.entries[c.fetches[f].ref].(value := Some(reply), expiresAt := c.clock + LIFETIME, generation := c.fetches[f].generation, cooldowns := [])
    ensures Settled(c, f, Some(reply)).fetches[f] == c.fetches[f].(progress := Succeeded(reply))
    ensures Settled(c, f, Some(reply)).table == c.table && Settled(c, f, Some(reply)).clock == c.clock
  {
  }

  /** What the success of a load does. */
  ghost predicate Lands(m: Queue, n: Queue, key: Key, f: Request) {
    && n.cache.waiting == m.cache.waiting && n.early == m.early && n.released == m.released
    && n.cache.table == m.cache.table && n.cache.clock == m.cache.clock
    && f in m.cache.fetches && f in n.cache.fetches && n.cache.fetches[f] == m.cache.fetches[f].(progress := Succeeded(Complete(m.cache)))
    && n.cache.fetches.Keys == m.cache.fetches.Keys && n.cache.entries.Keys == m.cache.entries.Keys
    && key in m.cache.table && m.cache.table[key] in m.cache.entries
    && n.cache.entries[n.cache.table[key]] ==
       m.cache.entries[m.cache.table[key]].(value := Some(Complete(m.cache)), expiresAt := m.cache.clock + LIFETIME,
                                            generation := m.cache.fetches[f].generation, cooldowns := [])
  }

  lemma SettleLands(m: Queue, key: Key, f: Request)
    requires Inv(m.cache) && Stamped(m.cache) && SingleFlight(m.cache) && !Draining(m) && f in m.cache.fetches && m.cache.fetches[f].progress.Running?
    requires key in m.cache.table && m.cache.table[key] == m.cache.fetches[f].ref && m.cache.fetches[f].kind.Load?
    ensures var settle := Settle(f, Some(Complete(m.cache)));
            && Orderly(m, settle) && Admitted(m, settle) && Lands(m, After(m, settle), key, f)
            && Inv(After(m, settle).cache) && Stamped(After(m, settle).cache) && SingleFlight(After(m, settle).cache)
  {
    var c := m.cache;
    var settle := Settle(f, Some(Complete(c)));
    NextKeeps(c, settle);
    StampedKeeps(c, settle);
    SettleKeepsSingleFlight(c, settle);
    MarkedIsNewest(c, f);
    SettledLands(m, key, f);
    hide Inv, Stamped, SingleFlight, Settled, Complete, Draining, Lands;
  }

  lemma SettledLands(m: Queue, key: Key, f: Request)
    requires f in m.cache.fetches && key in m.cache.table && m.cache.table[key] == m.cache.fetches[f].ref && m.cache.fetches[f].kind.Load?
    requires m.cache.table[key] in m.cache.entries && m.cache.entries[m.cache.table[key]].inflight == Some(f)
    requires m.cache.entries[m.cache.table[key]].generation <= m.cache.fetches[f].generation
    ensures Lands(m, m.(cache := Settled(m.cache, f, Some(Complete(m.cache)))), key, f)
  {
    SettledEnds(m.cache, f, Some(Complete(m.cache)));
    SettledLoad(m.cache, f, Complete(m.cache));
    hide Settled, Complete;
  }

  lemma LandsPending(m: Queue, n: Queue, key: Key, f: Request)
    requires Pending(m, key, f) && Lands(m, n, key, f) && Inv(n.cache) && Stamped(n.cache) && SingleFlight(n.cache)
    ensures Landed(n, key, f)
  {
    hide Inv, Stamped, SingleFlight, Complete;
    FewerEarlyFirst(m, n);
    hide EarlyFirst;
    forall v ensures !InTurn(n, v) { assert !InTurn(m, v); }
  }

  lemma LoadLands(m: Queue, key: Key, f: Request) returns (settle: Step)
    requires Pending(m, key, f) && m.cache.fetches[f].progress.Running?
    ensures settle == Settle(f, Some(Complete(m.cache))) && Inv(m.cache) && Orderly(m, settle) && Admitted(m, settle)
    ensures Landed(After(m, settle), key, f) && Lands(m, After(m, settle), key, f)
  {
    settle := Settle(f, Some(Complete(m.cache)));
    SettleLands(m, key, f);
    hide Pending, Lands, Landed, After, Orderly, Admitted;
    LandsPending(m, After(m, settle), key, f);
  }

  lemma LoadCleaned(m: Queue, key: Key, f: Request) returns (release: Step)
    requires Landed(m, key, f)
    ensures release == Release(f) && Orderly(m, release) && Admitted(m, release) && Group(After(m, release), key, f)
    ensures var n := After(m, release);
            && n.cache.waiting == m.cache.waiting && n.early == m.early && n.cache.table == m.cache.table && n.cache.clock == m.cache.clock
            && n.cache.fetches == m.cache.fetches
            && n.cache.entries[n.cache.table[key]] == m.cache.entries[m.cache.table[key]].(inflight := None)
  {
    release := Release(f);
    NextKeeps(m.cache, release);
    hide Inv, Stamped, SingleFlight, EarlyFirst;
    var n := After(m, release);
    FewerEarlyFirst(m, n);
    forall v | InTurn(n, v) ensures n.cache.waiting[v].fetch == f { assert !InTurn(m, v); }
  }

  /** A blind caller waits for the load. */
  ghost predicate Awaits(m: Queue, f: Request, w: Waiter) {
    w in m.cache.waiting && m.cache.waiting[w].fetch == f && Blind(m.cache, w)
  }

  /** Two blind callers of a load that is under way. */
  lemma TwoBlindBeside(m: Queue, key: Key, f: Request, v: Waiter, w: Waiter) returns (steps: seq<Step>, g: Request, h: Request)
    requires Pending(m, key, f) && m.cache.fetches[f].progress.Running? && Awaits(m, f, v) && Awaits(m, f, w) && v < w
    ensures OrderlyRun(m, steps) && AdmittedRun(m, steps)
    ensures var n := Last(m, steps); Group(n, key, f) && Beside(n, key, g, h) && key in m.cache.table && n.cache.table[key] == m.cache.table[key]
  {
    var settle := LoadLands(m, key, f);
    var m1 := After(m, settle);
    var release := LoadCleaned(m1, key, f);
    var m2 := After(m1, release);
    CompleteUnspoiled(m, m2, key, f, v);
    CompleteUnspoiled(m, m2, key, f, w);
    assert Hope(m2, key, f, w);
    hide Inv, Pending, Group, Orderly, Admitted, After, Unspoiled, Hope, Beside, Landed;
    var rest;
    rest, g, h := ComesBeside(m2, key, f, w);
    LandedFacts(m1, key, f);
    PendingFacts(m, key, f);
    RunPrepended(m1, release, rest);
    RunPrepended(m, settle, [release] + rest);
    steps := [settle] + ([release] + rest);
  }

  lemma LandedFacts(m: Queue, key: Key, f: Request)
    requires Landed(m, key, f)
    ensures Inv(m.cache) && key in m.cache.table && m.cache.table[key] in m.cache.entries
  {
  }

  lemma PendingFacts(m: Queue, key: Key, f: Request)
    requires Pending(m, key, f)
    ensures Inv(m.cache) && key in m.cache.table
  {
  }

  lemma CompleteUnspoiled(m: Queue, n: Queue, key: Key, f: Request, w: Waiter)
    requires Awaits(m, f, w) && Group(n, key, f) && n.cache.waiting == m.cache.waiting && f in m.cache.fetches && f in n.cache.fetches
    requires n.cache.fetches[f].generation == m.cache.fetches[f].generation
    requires var e := n.cache.entries[n.cache.table[key]]; e.value == Some(Complete(m.cache)) && e.cooldowns == []
    ensures Unspoiled(n, key, f, w)
  {
    hide Inv, EarlyFirst;
  }

  // ---------- the exact condition ----------

  /** What the theorem is about: a load that is running or has failed, or one that has succeeded with
      a value still fresh, while nobody who waits for it asks for the caller's key id. */
  ghost predicate Joinable(s: State, key: Key, ask: Ask)
    requires Backed(s.table, s.entries) && key in s.table && s.entries[s.table[key]].inflight.Some?
  {
    && Marked(s, key) in s.fetches
    && (s.fetches[Marked(s, key)].progress.Succeeded? ==>
          && s.entries[s.table[key]].expiresAt > s.clock
          && (ask.missingKid.None? || forall v :: v in s.waiting && s.waiting[v].fetch == Marked(s, key) ==> s.waiting[v].ask.missingKid != ask.missingKid))
  }

  /** The entry that is marked with a load which has succeeded holds its generation, so that whoever
      still joins the load joins it blindly. */
  lemma LateIsBlind(s: State, key: Key, ask: Ask)
    requires Inv(s) && Stamped(s) && JoinsLoad(s, key, ask)
    requires Marked(s, key) in s.fetches && s.fetches[Marked(s, key)].progress.Succeeded?
    ensures s.entries[s.table[key]].generation == s.fetches[Marked(s, key)].generation && s.entries[s.table[key]].value.Some?
    ensures Unseeing(ask, s.fetches[Marked(s, key)])
  {
    JoinMarks(s, key, ask);
    var f := Marked(s, key);
    assert Counted(s, f) && FetchSound(s, f) && EntrySound(s, s.table[key]) && MarkIsLast(s, s.table[key]);
    hide FetchSound;
  }

  /** The late caller waits, and the load has been cleaned up. */
  ghost predicate LateWaits(q: Queue, n: Queue, call: Step)
    requires call.Call? && Backed(q.cache.table, q.cache.entries) && call.key in q.cache.table && q.cache.entries[q.cache.table[call.key]].inflight.Some?
  {
    var s, c, ref, f := q.cache, n.cache, q.cache.table[call.key], Marked(q.cache, call.key);
    && call.key in c.table && c.table[call.key] == ref && ref in c.entries && c.clock == s.clock && f in c.fetches && c.fetches == s.fetches
    && c.waiting == s.waiting[call.waiter := Waiting(ref, f, Load, call.ask)] && call.waiter !in n.early
    && c.entries[ref] == s.entries[ref].(lastAccess := s.nextAccess, inflight := None)
  }

  lemma LateUnspoiled(q: Queue, n: Queue, call: Step)
    requires Backed(q.cache.table, q.cache.entries) && call.Call? && JoinsLoad(q.cache, call.key, call.ask) && Joinable(q.cache, call.key, call.ask)
    requires LateWaits(q, n, call) && q.cache.entries[q.cache.table[call.key]].value.Some?
    requires var f := Marked(q.cache, call.key); q.cache.fetches[f].progress.Succeeded? && Unseeing(call.ask, q.cache.fetches[f])
    ensures Unspoiled(n, call.key, Marked(q.cache, call.key), call.waiter)
  {
    SameCooling(q.cache.entries[q.cache.table[call.key]], n.cache.entries[n.cache.table[call.key]], call.ask, q.cache.clock);
    hide CoolingDown;
  }

  lemma LateHopes(q: Queue, n: Queue, call: Step)
    requires Backed(q.cache.table, q.cache.entries) && call.Call? && JoinsLoad(q.cache, call.key, call.ask) && Joinable(q.cache, call.key, call.ask)
    requires LateWaits(q, n, call) && q.cache.fetches[Marked(q.cache, call.key)].progress.Succeeded?
    ensures Hope(n, call.key, Marked(q.cache, call.key), call.waiter)
  {
  }

  /** A caller that joins a load which has succeeded comes to start a fetch beside another. */
  lemma LateBeside(q: Queue, call: Step) returns (steps: seq<Step>, g: Request, h: Request)
    requires InOrder(q) && call.Call? && Orderly(q, call) && JoinsLoad(q.cache, call.key, call.ask) && Joinable(q.cache, call.key, call.ask)
    requires q.cache.fetches[Marked(q.cache, call.key)].progress.Succeeded?
    ensures var m := After(q, call);
            && OrderlyRun(m, steps) && AdmittedRun(m, steps)
            && var n := Last(m, steps); Group(n, call.key, Marked(q.cache, call.key)) && Beside(n, call.key, g, h) && n.cache.table[call.key] == q.cache.table[call.key]
  {
    JoinWaits(q, call);
    LateIsBlind(q.cache, call.key, call.ask);
    var f, m := Marked(q.cache, call.key), After(q, call);
    assert Landed(m, call.key, f);
    var release := LoadCleaned(m, call.key, f);
    var n := After(m, release);
    assert LateWaits(q, n, call);
    hide InOrder, Inv, Pending, Group, Orderly, Admitted, After, Unspoiled, Hope, Beside, Landed, LateWaits, Joinable, JoinsLoad, JoinedBy;
    LateUnspoiled(q, n, call);
    LateHopes(q, n, call);
    var rest;
    rest, g, h := ComesBeside(n, call.key, f, call.waiter);
    LandedFacts(m, call.key, f);
    RunPrepended(m, release, rest);
    steps := [release] + rest;
  }

  /** A second blind caller of a load comes to start a fetch beside another. */
  lemma SecondBeside(q: Queue, call: Step) returns (steps: seq<Step>, g: Request, h: Request)
    requires InOrder(q) && call.Call? && Orderly(q, call) && JoinsLoad(q.cache, call.key, call.ask) && Joinable(q.cache, call.key, call.ask)
    requires q.cache.fetches[Marked(q.cache, call.key)].progress.Running? && Unseeing(call.ask, q.cache.fetches[Marked(q.cache, call.key)])
    requires exists v :: Awaits(q, Marked(q.cache, call.key), v)
    ensures var m := After(q, call);
            && OrderlyRun(m, steps) && AdmittedRun(m, steps)
            && var n := Last(m, steps); Group(n, call.key, Marked(q.cache, call.key)) && Beside(n, call.key, g, h) && n.cache.table[call.key] == q.cache.table[call.key]
  {
    JoinWaits(q, call);
    var f, m := Marked(q.cache, call.key), After(q, call);
    var v :| Awaits(q, f, v);
    AwaitsStill(q, m, call, v);
    hide InOrder, Inv, Group, Orderly, Admitted, After, Beside, Joinable, JoinsLoad, Awaits, Pending;
    steps, g, h := TwoBlindBeside(m, call.key, f, v, call.waiter);
  }

  lemma AwaitsStill(q: Queue, m: Queue, call: Step, v: Waiter)
    requires Backed(q.cache.table, q.cache.entries) && call.Call? && JoinsLoad(q.cache, call.key, call.ask) && Joinable(q.cache, call.key, call.ask)
    requires JoinedLast(q, m, call) && Awaits(q, Marked(q.cache, call.key), v)
    requires q.cache.fetches[Marked(q.cache, call.key)].progress.Running? && Unseeing(call.ask, q.cache.fetches[Marked(q.cache, call.key)])
    ensures Awaits(m, Marked(q.cache, call.key), v) && Awaits(m, Marked(q.cache, call.key), call.waiter) && v < call.waiter
  {
    hide Pending, CoolingDown;
  }

  /** A call that is not admitted comes to start a fetch beside another, while everybody else who calls
      is admitted. */
  lemma RefusedBeside(q: Queue, call: Step) returns (steps: seq<Step>, g: Request, h: Request)
    requires InOrder(q) && call.Call? && Orderly(q, call) && JoinsLoad(q.cache, call.key, call.ask) && Joinable(q.cache, call.key, call.ask)
    requires !Admitted(q, call)
    ensures var m := After(q, call);
            && OrderlyRun(m, steps) && AdmittedRun(m, steps)
            && var n := Last(m, steps); Group(n, call.key, Marked(q.cache, call.key)) && Beside(n, call.key, g, h) && n.cache.table[call.key] == q.cache.table[call.key]
  {
    var f := q.cache.fetches[Marked(q.cache, call.key)];
    if f.progress.Succeeded? {
      steps, g, h := LateBeside(q, call);
    } else {
      RefusedRunning(q, call);
      steps, g, h := SecondBeside(q, call);
    }
  }

  lemma RefusedRunning(q: Queue, call: Step)
    requires InOrder(q) && call.Call? && JoinsLoad(q.cache, call.key, call.ask) && Joinable(q.cache, call.key, call.ask) && !Admitted(q, call)
    requires !q.cache.fetches[Marked(q.cache, call.key)].progress.Succeeded?
    ensures q.cache.fetches[Marked(q.cache, call.key)].progress.Running? && Unseeing(call.ask, q.cache.fetches[Marked(q.cache, call.key)])
    ensures exists v :: Awaits(q, Marked(q.cache, call.key), v)
  {
    InvBacked(q.cache);
    hide Inv, Stamped, SingleFlight, Cleaned, OneInTurn, OneBlind, EarlyFirst, WaiterInOrder, CoolingDown;
    var v :| v in q.cache.waiting && q.cache.waiting[v].fetch == Marked(q.cache, call.key) && Blind(q.cache, v);
    assert Awaits(q, Marked(q.cache, call.key), v);
  }

  lemma {:induction false} AdmittedRunFlies(q: Queue, steps: seq<Step>)
    requires InOrder(q) && OrderlyRun(q, steps) && AdmittedRun(q, steps)
    ensures SingleFlight(Last(q, steps).cache)
    decreases |steps|
  {
    hide InOrder, Inv, Orderly, Admitted, After, SingleFlight;
    InOrderFlies(q);
    if steps != [] {
      AdmittedKeeps(q, steps[0]);
      AdmittedRunFlies(After(q, steps[0]), steps[1..]);
    }
  }

  lemma BesideIsDouble(q: Queue, key: Key, g: Request, h: Request)
    requires Beside(q, key, g, h)
    ensures !SingleFlight(q.cache)
  {
  }

  /** A call that joins a load leaves single flight safe, in every continuation of admitted calls,
      exactly when it is admitted itself: the load has failed, or it is still running and the caller
      has seen another generation than the one it brings, or is the first blind caller to join it. */
  lemma JoinSafeExactlyWhenAdmitted(q: Queue, call: Step)
    requires InOrder(q) && call.Call? && Orderly(q, call) && JoinsLoad(q.cache, call.key, call.ask) && Joinable(q.cache, call.key, call.ask)
    ensures Inv(After(q, call).cache)
    ensures Admitted(q, call) <==>
            forall steps :: OrderlyRun(After(q, call), steps) && AdmittedRun(After(q, call), steps) ==> SingleFlight(Last(After(q, call), steps).cache)
  {
    NextKeeps(q.cache, call);
    hide InOrder, Inv, Orderly, Admitted, After, SingleFlight, OrderlyRun, AdmittedRun, Last, Joinable, JoinsLoad, Group, Beside;
    var m := After(q, call);
    if Admitted(q, call) {
      AdmittedKeeps(q, call);
      forall steps | OrderlyRun(m, steps) && AdmittedRun(m, steps) ensures SingleFlight(Last(m, steps).cache) { AdmittedRunFlies(m, steps); }
    } else {
      var steps, g, h := RefusedBeside(q, call);
      BesideIsDouble(Last(m, steps), call.key, g, h);
    }
  }

  // ---------- eviction under a running fetch ----------

  /** No time passes, and only other keys are looked up, without force. */
  predicate Swift(steps: seq<Step>, key: Key) {
    forall i :: 0 <= i < |steps| ==> !steps[i].Tick? && (steps[i].Call? ==> !steps[i].ask.force && steps[i].key != key)
  }

  lemma SwiftPrepended(step: Step, rest: seq<Step>, key: Key)
    requires Swift(rest, key) && !step.Tick? && (step.Call? ==> !step.ask.force && step.key != key)
    ensures Swift([step] + rest, key)
  {
    var steps := [step] + rest;
    forall i | 0 <= i < |steps| ensures !steps[i].Tick? && (steps[i].Call? ==> !steps[i].ask.force && steps[i].key != key) {
      if i > 0 { assert steps[i] == rest[i - 1]; }
    }
  }

  lemma SwiftAppended(a: seq<Step>, b: seq<Step>, key: Key)
    requires Swift(a, key) && Swift(b, key)
    ensures Swift(a + b, key)
  {
  }

  /** Everybody who waits for the load in time goes on. */
  lemma {:induction false} DrainAll(q: Queue, key: Key, f: Request, g: Request, h: Request) returns (steps: seq<Step>, last: Request)
    requires Group(q, key, f) && Beside(q, key, g, h)
    ensures OrderlyRun(q, steps) && AdmittedRun(q, steps) && Swift(steps, key)
    ensures var n := Last(q, steps);
            && !Draining(n) && Inv(n.cache) && Beside(n, key, g, last) && key in q.cache.table && n.cache.table[key] == q.cache.table[key]
            && g in q.cache.fetches && n.cache.fetches[g] == q.cache.fetches[g]
    decreases |OfLoad(q.cache, f)|
  {
    hide Inv, Group, Under, StartsNow, GoesOnStarting, GoesOnQuietly, Orderly, Admitted, After, OfLoad, Draining, Beside;
    WaitersOf(q, key, f);
    BesideRuns(q, key, g, h);
    if !Draining(q) {
      EmptyRun(q);
      return [], h;
    }
    var w := InTurnOf(q, key, f);
    var v := NextInLine(q, key, f, w);
    var step := GoOn(q, key, f, v);
    var m := After(q, step);
    var next := if StartsNow(q.cache, v) then step.newFetch else h;
    if StartsNow(q.cache, v) {
      StartingBeside(q, m, key, v, g, h, next);
    } else {
      QuietBeside(q, m, key, v, g, h);
    }
    var rest;
    rest, last := DrainAll(m, key, f, g, next);
    RunPrepended(q, step, rest);
    SwiftPrepended(step, rest, key);
    steps := [step] + rest;
  }

  lemma BesideRuns(q: Queue, key: Key, g: Request, h: Request)
    requires Beside(q, key, g, h)
    ensures g in q.cache.fetches && key in q.cache.table
  {
  }

  lemma InTurnOf(q: Queue, key: Key, f: Request) returns (w: Waiter)
    requires Group(q, key, f) && Draining(q)
    ensures w in q.cache.waiting && q.cache.waiting[w].fetch == f
  {
    w :| InTurn(q, w);
  }

  lemma StartingBeside(q: Queue, m: Queue, key: Key, v: Waiter, g: Request, h: Request, h': Request)
    requires Beside(q, key, g, h) && GoesOnStarting(q.cache, m.cache, v, h') && Under(m, key, h')
    ensures Beside(m, key, g, h') && m.cache.fetches[g] == q.cache.fetches[g]
  {
  }

  lemma QuietBeside(q: Queue, m: Queue, key: Key, v: Waiter, g: Request, h: Request)
    requires Beside(q, key, g, h) && GoesOnQuietly(q.cache, m.cache, v) && m.released == q.released
    ensures Beside(m, key, g, h) && m.cache.fetches[g] == q.cache.fetches[g]
  {
    QuietUnder(q, m, key, v, h);
    hide SharedCooldowns;
  }

  /** Nobody is going on, and a fetch of the entry under the key is running that it is not marked with. */
  ghost predicate Exposed(q: Queue, key: Key, g: Request) {
    var s := q.cache;
    && Inv(s) && !Draining(q) && key in s.table && s.table[key] in s.entries && s.entries[s.table[key]].inflight.None?
    && g in s.fetches && s.fetches[g].ref == s.table[key] && s.fetches[g].progress.Running?
  }

  lemma MarkedFails(q: Queue, key: Key, g: Request, h: Request)
    requires Inv(q.cache) && !Draining(q) && Beside(q, key, g, h)
    ensures var settle := Settle(h, None);
            && Orderly(q, settle) && Admitted(q, settle)
            && After(q, settle) == q.(cache := q.cache.(fetches := q.cache.fetches[h := q.cache.fetches[h].(progress := Failed)]))
            && Inv(After(q, settle).cache) && !Draining(After(q, settle))
  {
    NextKeeps(q.cache, Settle(h, None));
    hide Inv;
    var m := After(q, Settle(h, None));
    forall v ensures !InTurn(m, v) { assert !InTurn(q, v); }
  }

  lemma MarkedReleased(m: Queue, key: Key, h: Request)
    requires Inv(m.cache) && !Draining(m) && h in m.cache.fetches && !m.cache.fetches[h].progress.Running? && h !in m.released
    requires key in m.cache.table && m.cache.table[key] in m.cache.entries && m.cache.fetches[h].ref == m.cache.table[key]
    requires m.cache.entries[m.cache.table[key]].inflight == Some(h) && forall v :: v in m.cache.waiting ==> m.cache.waiting[v].fetch != h
    ensures var release := Release(h);
            && Orderly(m, release) && Admitted(m, release) && Inv(After(m, release).cache) && !Draining(After(m, release))
            && After(m, release).cache == Update(m.cache, m.cache.table[key], m.cache.entries[m.cache.table[key]].(inflight := None))
  {
    NextKeeps(m.cache, Release(h));
    hide Inv;
    var n := After(m, Release(h));
    forall v ensures !InTurn(n, v) { assert !InTurn(m, v); }
  }

  /** The fetch that the entry is marked with fails and is cleaned up. */
  lemma MarkGoes(q: Queue, key: Key, g: Request, h: Request) returns (settle: Step, release: Step)
    requires Inv(q.cache) && !Draining(q) && Beside(q, key, g, h)
    ensures settle.Settle? && release.Release? && Orderly(q, settle) && Admitted(q, settle) && Inv(After(q, settle).cache)
    ensures Orderly(After(q, settle), release) && Admitted(After(q, settle), release)
    ensures var n := After(After(q, settle), release);
            Exposed(n, key, g) && n.cache.table[key] == q.cache.table[key] && n.cache.fetches[g] == q.cache.fetches[g]
  {
    settle, release := Settle(h, None), Release(h);
    hide Inv, Orderly, Admitted, After, Draining;
    MarkedFails(q, key, g, h);
    var m := After(q, settle);
    MarkedReleased(m, key, h);
  }

  // ---------- by least recent use ----------

  function MarkedKeys(s: State): set<Key>
    requires Backed(s.table, s.entries)
  {
    set k | k in s.table && s.entries[s.table[k]].inflight.Some?
  }

  const PLAIN: Ask := Ask(false, None, None)

  /** While an idle entry stays, there is room for another. */
  lemma IdleMakesRoom(table: map<Key, Ref>, entries: map<Ref, Entry>, now: Instant, target: nat, key: Key)
    requires Backed(table, entries) && key in table && entries[table[key]].inflight.None?
    ensures key in Pruned(table, entries, now, target) ==> |Pruned(table, entries, now, target)| <= target
  {
  }

  lemma AddedMarked(s: State, k: Key, newRef: Ref, fetch: Request, waiter: Waiter)
    requires newRef !in s.entries && fetch !in s.fetches
    ensures var n := Added(s, k, PLAIN, newRef, fetch, waiter);
            && n.waiting == s.waiting && FetchesStay(s, n) && n.table == s.table[k := newRef]
            && newRef in n.entries && n.entries[newRef].inflight.Some? && forall r :: r in s.entries ==> r in n.entries && n.entries[r] == s.entries[r]
  {
  }

  /** The entry under the key has left the table, or is idle as before beside one more marked entry. */
  ghost predicate Squeezed(s: State, n: State, key: Key, k: Key) {
    && n.waiting == s.waiting && FetchesStay(s, n)
    && (key in n.table ==> && key in s.table && n.table[key] == s.table[key] && n.table[key] in n.entries && n.entries[n.table[key]].inflight.None?
                           && k in n.table && n.table[k] in n.entries && n.entries[n.table[k]].inflight.Some?)
  }

  lemma MissedSqueezes(s: State, room: map<Key, Ref>, key: Key, k: Key, newRef: Ref, fetch: Request, waiter: Waiter)
    requires newRef !in s.entries && fetch !in s.fetches && key in s.table && s.table[key] in s.entries && s.entries[s.table[key]].inflight.None? && k != key
    requires key in room ==> room[key] == s.table[key] && |room| < MAX_ENTRIES
    ensures Squeezed(s, Missed(s, room, k, PLAIN, newRef, fetch, waiter), key, k)
  {
    hide Added;
    if |room| < MAX_ENTRIES { AddedMarked(s.(table := room), k, newRef, fetch, waiter); }
  }

  lemma NewKeySqueezes(s: State, key: Key, k: Key, newRef: Ref, fetch: Request, waiter: Waiter)
    requires Inv(s) && key in s.table && s.table[key] in s.entries && s.entries[s.table[key]].inflight.None? && k !in s.table
    requires newRef !in s.entries && fetch !in s.fetches
    ensures Backed(s.table, s.entries) && Squeezed(s, Called(s, k, PLAIN, newRef, fetch, waiter), key, k)
  {
    InvBacked(s);
    PrunedTraits(s.table, s.entries, s.clock, MAX_ENTRIES);
    var pruned := Pruned(s.table, s.entries, s.clock, MAX_ENTRIES);
    PrunedTraits(pruned, s.entries, s.clock, MAX_ENTRIES - 1);
    hide Inv, Pruned, Missed, Found, Swept, Squeezed;
    if key in pruned { IdleMakesRoom(pruned, s.entries, s.clock, MAX_ENTRIES - 1, key); }
    MissedSqueezes(s, Pruned(pruned, s.entries, s.clock, MAX_ENTRIES - 1), key, k, newRef, fetch, waiter);
  }

  lemma MarkedFit(s: State, key: Key)
    requires Inv(s) && key in s.table && s.table[key] in s.entries && s.entries[s.table[key]].inflight.None?
    ensures Backed(s.table, s.entries) && |MarkedKeys(s)| < MAX_ENTRIES
  {
    InvBacked(s);
    var marked := MarkedKeys(s);
    assert marked <= s.table.Keys - {key};
    SubsetSmaller(marked, s.table.Keys - {key});
    assert |s.table.Keys| == |s.table|;
  }

  lemma MoreMarked(s: State, n: State, key: Key, k: Key)
    requires Backed(s.table, s.entries) && Backed(n.table, n.entries) && CallLeaves(s, n) && Squeezed(s, n, key, k) && key in n.table && k !in s.table
    ensures |MarkedKeys(s)| < |MarkedKeys(n)|
  {
    assert MarkedKeys(s) + {k} <= MarkedKeys(n);
    SubsetSmaller(MarkedKeys(s) + {k}, MarkedKeys(n));
  }

  lemma PlainMayCome(q: Queue, k: Key, newRef: Ref, fetch: Request, waiter: Waiter)
    requires Inv(q.cache) && !Draining(q) && newRef !in q.cache.entries && fetch !in q.cache.fetches && forall v :: v in q.cache.waiting ==> v < waiter
    ensures var call := Call(k, PLAIN, newRef, fetch, waiter);
            && Orderly(q, call) && Admitted(q, call) && Inv(After(q, call).cache)
            && Backed(q.cache.table, q.cache.entries) && After(q, call).cache == Called(q.cache, k, PLAIN, newRef, fetch, waiter)
            && After(q, call).released == q.released
            && (After(q, call).cache.waiting == q.cache.waiting ==> After(q, call).early == q.early)
  {
    InvBacked(q.cache);
    assert waiter !in q.cache.waiting;
    NextKeeps(q.cache, Call(k, PLAIN, newRef, fetch, waiter));
    hide Inv, Called, Draining;
  }

  lemma StillExposed(q: Queue, m: Queue, key: Key, g: Request, k: Key)
    requires Exposed(q, key, g) && Inv(m.cache) && Squeezed(q.cache, m.cache, key, k) && m.released == q.released && m.early == q.early
    requires key in m.cache.table
    ensures Exposed(m, key, g)
  {
    hide Inv;
    forall v ensures !InTurn(m, v) { assert !InTurn(q, v); }
  }

  lemma CrowdStep(q: Queue, key: Key, g: Request) returns (call: Step)
    requires Exposed(q, key, g) && Backed(q.cache.table, q.cache.entries)
    ensures call.Call? && !call.ask.force && call.key != key && Inv(q.cache) && Orderly(q, call) && Admitted(q, call)
    ensures var m := After(q, call);
            && Inv(m.cache) && Backed(m.cache.table, m.cache.entries) && g in q.cache.fetches && g in m.cache.fetches && m.cache.fetches[g] == q.cache.fetches[g]
            && (key in m.cache.table ==> Exposed(m, key, g) && |MarkedKeys(q.cache)| < |MarkedKeys(m.cache)| < MAX_ENTRIES)
  {
    var s := q.cache;
    var k := Above(s.table.Keys);
    var newRef := Above(s.entries.Keys);
    var fetch := Above(s.fetches.Keys);
    var waiter := Above(s.waiting.Keys);
    call := Call(k, PLAIN, newRef, fetch, waiter);
    PlainMayCome(q, k, newRef, fetch, waiter);
    NewKeySqueezes(s, key, k, newRef, fetch, waiter);
    CallTraits(s, k, PLAIN, newRef, fetch, waiter);
    var m := After(q, call);
    InvBacked(m.cache);
    assert g in m.cache.fetches;
    hide Inv, Orderly, Admitted, After, Called, Exposed, Squeezed, CallLeaves, CallStarts, MarkedKeys, Backed, Draining;
    if key in m.cache.table {
      StillExposed(q, m, key, g, k);
      ExposedIsIdle(m, key, g);
      MarkedFit(m.cache, key);
      MoreMarked(s, m.cache, key, k);
    }
  }

  lemma ExposedIsIdle(q: Queue, key: Key, g: Request)
    requires Exposed(q, key, g)
    ensures Inv(q.cache) && key in q.cache.table && q.cache.table[key] in q.cache.entries && q.cache.entries[q.cache.table[key]].inflight.None?
  {
  }

  /** Calls for other keys, one after the other, crowd an idle entry out: each leaves a marked entry,
      and the cache holds a bounded number. */
  lemma {:induction false} CrowdedOut(q: Queue, key: Key, g: Request) returns (steps: seq<Step>)
    requires Exposed(q, key, g) && Backed(q.cache.table, q.cache.entries)
    ensures OrderlyRun(q, steps) && AdmittedRun(q, steps) && Swift(steps, key)
    ensures var n := Last(q, steps).cache; key !in n.table && g in q.cache.fetches && g in n.fetches && n.fetches[g] == q.cache.fetches[g]
    decreases MAX_ENTRIES - |MarkedKeys(q.cache)|
  {
    hide Exposed, Inv, Orderly, Admitted, After, Backed, MarkedKeys;
    var call := CrowdStep(q, key, g);
    var m := After(q, call);
    var rest := [];
    if key in m.cache.table {
      rest := CrowdedOut(m, key, g);
    } else {
      EmptyRun(m);
    }
    RunPrepended(q, call, rest);
    SwiftPrepended(call, rest, key);
    steps := [call] + rest;
  }

  /** Once two fetches of an entry run beside each other, it can leave the cache while one of them is
      still running, and nobody needs to wait for its value to expire. */
  lemma BesideEvicts(q: Queue, key: Key, f: Request, g: Request, h: Request) returns (steps: seq<Step>)
    requires Group(q, key, f) && Beside(q, key, g, h)
    ensures OrderlyRun(q, steps) && AdmittedRun(q, steps) && Swift(steps, key)
    ensures var n := Last(q, steps).cache;
            && key !in n.table && g in q.cache.fetches && g in n.fetches && n.fetches[g] == q.cache.fetches[g]
  {
    hide Inv, Group, Beside, Exposed, Orderly, Admitted, After, Backed, MarkedKeys, Draining;
    WaitersOf(q, key, f);
    var drained, last := DrainAll(q, key, f, g, h);
    var m := Last(q, drained);
    BesideRuns(m, key, g, last);
    var settle, release := MarkGoes(m, key, g, last);
    var m1 := After(m, settle);
    var m2 := After(m1, release);
    ExposedIsIdle(m2, key, g);
    InvBacked(m2.cache);
    var rest := CrowdedOut(m2, key, g);
    RunPrepended(m1, release, rest);
    RunPrepended(m, settle, [release] + rest);
    RunsAppended(q, drained, [settle] + ([release] + rest));
    SwiftPrepended(release, rest, key);
    SwiftPrepended(settle, [release] + rest, key);
    SwiftAppended(drained, [settle] + ([release] + rest), key);
    steps := drained + ([settle] + ([release] + rest));
  }

  /** After a call that is not admitted the entry can leave the cache while a fetch of it is under way. */
  lemma RefusedJoinEvicts(q: Queue, call: Step) returns (before: seq<Step>, after: seq<Step>, g: Request)
    requires InOrder(q) && call.Call? && Orderly(q, call) && JoinsLoad(q.cache, call.key, call.ask) && Joinable(q.cache, call.key, call.ask)
    requires !Admitted(q, call)
    ensures var m := After(q, call);
            && OrderlyRun(m, before) && AdmittedRun(m, before) && OrderlyRun(m, before + after) && AdmittedRun(m, before + after) && Swift(after, call.key)
            && var n, last := Last(m, before).cache, Last(m, before + after).cache;
               && call.key in n.table && n.table[call.key] == q.cache.table[call.key] && call.key !in last.table
               && g in n.fetches && g in last.fetches && n.fetches[g] == last.fetches[g]
               && n.fetches[g].progress.Running? && n.fetches[g].ref == q.cache.table[call.key]
  {
    hide InOrder, Inv, Group, Orderly, Admitted, After, Joinable, JoinsLoad;
    InOrderFlies(q);
    InvBacked(q.cache);
    BackedJoin(q, call);
    var h;
    before, g, h := RefusedBeside(q, call);
    var n := Last(After(q, call), before);
    BesideRuns(n, call.key, g, h);
    after := BesideEvicts(n, call.key, Marked(q.cache, call.key), g, h);
    RunsAppended(After(q, call), before, after);
  }

  // ---------- two callers that leave the generation to its default ----------

  const AT_START: State := State(0, 0, map[], map[], map[], map[], map[])
  const LOADING: Entry := NEW_ENTRY.(lastAccess := 1, nextGeneration := 2, inflight := Some(0))
  const AFTER_LOAD: State := AT_START.(table := map[0 := 0], nextAccess := 2, entries := map[0 := LOADING],
                                       fetches := map[0 := Fetch(0, 1, Load, None, Running)])

  const EMPTY: Queue := Queue(AT_START, {}, {})
  const LOAD_CALL: Step := Call(0, PLAIN, 0, 0, 0)

  /** loadMicrosoftJwks takes no observed generation by default. */
  function MissCall(waiter: Waiter): Step {
    Call(0, Ask(true, None, Some("kid")), 1, 1, waiter)
  }

  lemma NothingPruned(table: map<Key, Ref>, entries: map<Ref, Entry>, now: Instant, target: nat)
    requires Backed(table, entries) && |table| <= target
    requires forall k :: k in table ==> !Dead(entries[table[k]], now)
    ensures Pruned(table, entries, now, target) == table
  {
    assert Swept(table, entries, now) == table;
  }

  lemma LoadCalled()
    ensures Called(AT_START, 0, PLAIN, 0, 0, 0) == AFTER_LOAD
  {
    NothingPruned(AT_START.table, AT_START.entries, 0, MAX_ENTRIES);
    NothingPruned(AT_START.table, AT_START.entries, 0, MAX_ENTRIES - 1);
  }

  lemma LoadUnderWay()
    ensures InOrder(EMPTY) && Orderly(EMPTY, LOAD_CALL) && After(EMPTY, LOAD_CALL) == Queue(AFTER_LOAD, {}, {})
    ensures InOrder(Queue(AFTER_LOAD, {}, {}))
  {
    InitialInOrder(AT_START);
    LoadCalled();
    assert Orderly(EMPTY, LOAD_CALL) && Admitted(EMPTY, LOAD_CALL);
    AdmittedKeeps(EMPTY, LOAD_CALL);
    hide InOrder, Inv, Called;
  }

  /** The first such caller is admitted. */
  lemma FirstMiss()
    requires InOrder(Queue(AFTER_LOAD, {}, {}))
    ensures var q := Queue(AFTER_LOAD, {}, {});
            && Orderly(q, MissCall(1)) && JoinsLoad(AFTER_LOAD, 0, MissCall(1).ask) && Admitted(q, MissCall(1)) && InOrder(After(q, MissCall(1)))
            && JoinedLast(q, After(q, MissCall(1)), MissCall(1))
  {
    var q := Queue(AFTER_LOAD, {}, {});
    assert forall v :: !InTurn(q, v);
    assert Orderly(q, MissCall(1)) && JoinsLoad(AFTER_LOAD, 0, MissCall(1).ask) && Admitted(q, MissCall(1));
    hide InOrder, Inv, Called, After, Orderly, Admitted, JoinsLoad, JoinedLast;
    AdmittedKeeps(q, MissCall(1));
    JoinWaits(q, MissCall(1));
  }

  /** The second is not. */
  lemma SecondMiss(q: Queue)
    requires InOrder(q) && JoinedBy(AFTER_LOAD, q.cache, 0, MissCall(1).ask, 1) && Pending(q, 0, 0)
    ensures Orderly(q, MissCall(2)) && JoinsLoad(q.cache, 0, MissCall(2).ask) && Marked(q.cache, 0) == 0 && !Admitted(q, MissCall(2)) && JoinedLast(q, After(q, MissCall(2)), MissCall(2))
  {
    InOrderFlies(q);
    InvBacked(q.cache);
    assert Blind(q.cache, 1);
    hide InOrder, Inv;
    JoinWaits(q, MissCall(2));
  }

  /** Two blind callers wait for the load, and nobody else. */
  ghost predicate TwoWait(m: Queue) {
    && Pending(m, 0, 0) && m.cache.fetches[0].progress.Running? && m.cache.waiting.Keys == {1, 2}
    && Awaits(m, 0, 1) && Awaits(m, 0, 2)
  }

  lemma OrderlyPrepended(q: Queue, step: Step, rest: seq<Step>)
    requires Inv(q.cache) && Orderly(q, step) && OrderlyRun(After(q, step), rest)
    ensures OrderlyRun(q, [step] + rest) && Last(q, [step] + rest) == Last(After(q, step), rest)
  {
    hide Inv, Orderly, After;
    assert ([step] + rest)[1..] == rest;
  }

  /** The load succeeds and is cleaned up, and the two go on one after the other. */
  lemma TwoGoOn(m: Queue) returns (reply: Reply, g: Request, h: Request)
    requires TwoWait(m)
    ensures var steps := [Settle(0, Some(reply)), Release(0), Resume(1, g), Resume(2, h)];
            && OrderlyRun(m, steps) && var n := Last(m, steps); Group(n, 0, 0) && Beside(n, 0, g, h)
  {
    hide TwoWait, Pending, Landed, Lands, Group, Unspoiled, Awaits, Orderly, Admitted, After, Inv, Complete, Under, Beside;
    reply := Complete(m.cache);
    TwoFacts(m);
    var settle := LoadLands(m, 0, 0);
    var m1 := After(m, settle);
    LandedFacts(m1, 0, 0);
    var release := LoadCleaned(m1, 0, 0);
    var m2 := After(m1, release);
    WaitersOf(m2, 0, 0);
    TwoUnspoiled(m, m1, m2);
    var resume1, resume2 := TwoResume(m2);
    g, h := resume1.newFetch, resume2.newFetch;
    OrderlyPrepended(m1, release, [resume1, resume2]);
    OrderlyPrepended(m, settle, [release] + [resume1, resume2]);
    assert [settle] + ([release] + [resume1, resume2]) == [settle, release, resume1, resume2];
  }

  lemma TwoFacts(m: Queue)
    requires TwoWait(m)
    ensures Pending(m, 0, 0) && 0 in m.cache.fetches && m.cache.fetches[0].progress.Running?
  {
  }

  lemma TwoUnspoiled(m: Queue, m1: Queue, m2: Queue)
    requires TwoWait(m) && Lands(m, m1, 0, 0) && Group(m2, 0, 0)
    requires m2.cache.waiting == m1.cache.waiting && m2.cache.fetches == m1.cache.fetches && m2.cache.table == m1.cache.table
    requires 0 in m1.cache.table && m1.cache.table[0] in m1.cache.entries && m2.cache.table[0] in m2.cache.entries
    requires m2.cache.entries[m2.cache.table[0]] == m1.cache.entries[m1.cache.table[0]].(inflight := None)
    ensures Unspoiled(m2, 0, 0, 1) && Unspoiled(m2, 0, 0, 2) && First(m2, 1)
    ensures m2.cache.waiting.Keys == {1, 2} && m2.cache.waiting[1].fetch == 0 && m2.cache.waiting[2].fetch == 0
  {
    hide Pending, Group, Unspoiled, Complete;
    CompleteUnspoiled(m, m2, 0, 0, 1);
    CompleteUnspoiled(m, m2, 0, 0, 2);
    hide Lands;
  }

  lemma TwoResume(q: Queue) returns (resume1: Step, resume2: Step)
    requires Group(q, 0, 0) && First(q, 1) && q.cache.waiting.Keys == {1, 2} && q.cache.waiting[1].fetch == 0 && q.cache.waiting[2].fetch == 0
    requires Unspoiled(q, 0, 0, 1) && Unspoiled(q, 0, 0, 2)
    ensures resume1.Resume? && resume1.waiter == 1 && resume2.Resume? && resume2.waiter == 2 && OrderlyRun(q, [resume1, resume2])
    ensures var n := Last(q, [resume1, resume2]); Group(n, 0, 0) && Beside(n, 0, resume1.newFetch, resume2.newFetch)
  {
    hide Group, Unspoiled, Orderly, Admitted, After, Inv, StartsNow, GoesOnStarting, GoesOnQuietly, Under, Beside;
    WaitersOf(q, 0, 0);
    UnspoiledStarts(q, 0, 0, 1);
    resume1 := GoOn(q, 0, 0, 1);
    var m := After(q, resume1);
    StartingUnspoiled(q, m, 0, 0, 1, resume1.newFetch, 2);
    LeavesAlone(q.cache, m.cache, 1, resume1.newFetch);
    assert First(m, 2) && m.cache.waiting[2].fetch == 0;
    WaitersOf(m, 0, 0);
    UnspoiledStarts(m, 0, 0, 2);
    resume2 := GoOn(m, 0, 0, 2);
    var n := After(m, resume2);
    WaitersOf(n, 0, 0);
    StartedBeside(m, n, 0, 2, resume1.newFetch, resume2.newFetch);
    EmptyRun(n);
    OrderlyPrepended(m, resume2, []);
    OrderlyPrepended(q, resume1, [resume2]);
    assert [resume1] + [resume2] == [resume1, resume2] && [resume2] + [] == [resume2];
  }

  lemma TwoHaveJoined(q: Queue, m: Queue)
    requires Backed(q.cache.table, q.cache.entries) && JoinedBy(AFTER_LOAD, q.cache, 0, MissCall(1).ask, 1) && JoinsLoad(q.cache, 0, MissCall(2).ask)
    requires JoinedLast(q, m, MissCall(2))
    ensures TwoWait(m)
  {
    hide Inv, Stamped, SingleFlight, EarlyFirst, Draining;
  }

  lemma {:induction false} OrderlyAppended(q: Queue, a: seq<Step>, b: seq<Step>)
    requires OrderlyRun(q, a) && OrderlyRun(Last(q, a), b)
    ensures OrderlyRun(q, a + b) && Last(q, a + b) == Last(Last(q, a), b)
    decreases |a|
  {
    hide Inv, Orderly, After;
    if a == [] {
      assert a + b == b;
    } else {
      OrderlyAppended(After(q, a[0]), a[1..], b);
      assert (a + b)[1..] == a[1..] + b;
    }
  }

  /** The state in which the two callers wait. */
  lemma TwoCallersJoin() returns (m: Queue)
    ensures TwoWait(m)
    ensures forall rest :: OrderlyRun(m, rest) ==>
              OrderlyRun(EMPTY, [LOAD_CALL, MissCall(1), MissCall(2)] + rest) && Last(EMPTY, [LOAD_CALL, MissCall(1), MissCall(2)] + rest) == Last(m, rest)
  {
    hide Orderly, Admitted, After, Inv, InOrder, JoinedBy, Pending, JoinsLoad, Draining, TwoWait, OrderlyRun, Last;
    LoadUnderWay();
    FirstMiss();
    var q1 := Queue(AFTER_LOAD, {}, {});
    InOrderFlies(q1);
    var q2 := After(q1, MissCall(1));
    PendingFacts(q2, 0, 0);
    SecondMiss(q2);
    InOrderFlies(EMPTY);
    InOrderFlies(q2);
    InvBacked(q2.cache);
    m := After(q2, MissCall(2));
    TwoHaveJoined(q2, m);
    forall rest | OrderlyRun(m, rest)
      ensures OrderlyRun(EMPTY, [LOAD_CALL, MissCall(1), MissCall(2)] + rest) && Last(EMPTY, [LOAD_CALL, MissCall(1), MissCall(2)] + rest) == Last(m, rest)
    {
      OrderlyPrepended(q2, MissCall(2), rest);
      OrderlyPrepended(q1, MissCall(1), [MissCall(2)] + rest);
      OrderlyPrepended(EMPTY, LOAD_CALL, [MissCall(1)] + ([MissCall(2)] + rest));
      assert [LOAD_CALL] + ([MissCall(1)] + ([MissCall(2)] + rest)) == [LOAD_CALL, MissCall(1), MissCall(2)] + rest;
    }
  }

  /** From an empty cache: a load, two forced calls that leave the observed generation to its default
      and join it, its success and its cleanup.  The two callers go on and start a fetch each, the
      first of which the entry is then not marked with; calls for other keys evict the entry while
      that fetch is running. */
  lemma TwoDefaultCallersEvict() returns (before: seq<Step>, after: seq<Step>, reply: Reply, g: Request, h: Request)
    ensures before == [LOAD_CALL, MissCall(1), MissCall(2), Settle(0, Some(reply)), Release(0), Resume(1, g), Resume(2, h)]
    ensures OrderlyRun(EMPTY, before) && OrderlyRun(EMPTY, before + after) && Swift(after, 0)
    ensures var n, last := Last(EMPTY, before).cache, Last(EMPTY, before + after).cache;
            && 0 in n.table && n.table[0] in n.entries && n.entries[n.table[0]].inflight == Some(h) && g != h
            && g in n.fetches && n.fetches[g].ref == n.table[0] && n.fetches[g].progress.Running?
            && 0 !in last.table && g in last.fetches && last.fetches[g] == n.fetches[g]
  {
    hide TwoWait, Group, Orderly, Admitted, After, Inv, OrderlyRun, AdmittedRun, Last;
    var m := TwoCallersJoin();
    reply, g, h := TwoGoOn(m);
    var tail := [Settle(0, Some(reply)), Release(0), Resume(1, g), Resume(2, h)];
    var n := Last(m, tail);
    after := BesideEvicts(n, 0, 0, g, h);
    OrderlyAppended(m, tail, after);
    before := [LOAD_CALL, MissCall(1), MissCall(2)] + tail;
    assert before + after == [LOAD_CALL, MissCall(1), MissCall(2)] + (tail + after);
  }
}
