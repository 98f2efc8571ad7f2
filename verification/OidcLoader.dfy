/** The cache of OidcCache as the objects the source keeps (loadMicrosoftJwks,
    discoverMicrosoftOpenIdConfiguration and pruneMicrosoftOidcCacheMap in src/auth-runtime.ts):
    a map whose entries are updated in place, also by fetches that outlive their place in the map.
    Each method is one uninterrupted stretch of the source and is proved to be the step of OidcCache
    that models it. */
module OidcLoader {

  import opened OidcCache

  /** The cooldowns left after those that are over, and that of a key id, have been deleted. */
  method StillCooling(cooldowns: seq<Cooldown>, kid: Kid, at: Instant) returns (live: seq<Cooldown>)
    ensures live == LiveCooldowns(cooldowns, kid, at)
  {
    live := [];
    for i := 0 to |cooldowns|
      invariant live + LiveCooldowns(cooldowns[i..], kid, at) == LiveCooldowns(cooldowns, kid, at)
    {
      LiveStep(cooldowns, i, kid, at);
      if cooldowns[i].until > at && cooldowns[i].kid != kid { live := live + [cooldowns[i]]; }
    }
  }

  lemma LiveStep(cooldowns: seq<Cooldown>, i: nat, kid: Kid, at: Instant)
    requires i < |cooldowns|
    ensures LiveCooldowns(cooldowns[i..], kid, at)
         == (if cooldowns[i].until > at && cooldowns[i].kid != kid then [cooldowns[i]] else []) + LiveCooldowns(cooldowns[i + 1..], kid, at)
  {
    assert cooldowns[i..][0] == cooldowns[i] && cooldowns[i..][1..] == cooldowns[i + 1..];
  }

  /** The oldest go until the limit is met. */
  method Newest(all: seq<Cooldown>) returns (live: seq<Cooldown>)
    ensures live == if |all| > MAX_COOLDOWNS then all[|all| - MAX_COOLDOWNS..] else all
  {
    live := all;
    while |live| > MAX_COOLDOWNS
      invariant |live| <= |all| && live == all[|all| - |live|..]
      invariant |live| >= MAX_COOLDOWNS || live == all
    {
      live := live[1..];
    }
  }

  class CacheEntry {
    ghost const ref: Ref
    var value: Option<Reply>
    var expiresAt: Instant
    var generation: nat
    var nextGeneration: nat
    var inflight: Option<Request>
    var inflightKind: Kind
    var cooldowns: seq<Cooldown>
    var lastAccess: nat

    ghost function Row(): Entry
      reads this
    {
      Entry(value, expiresAt, generation, nextGeneration, inflight, inflightKind, cooldowns, lastAccess)
    }

    predicate Stale(now: Instant)
      reads this
      ensures Stale(now) <==> Dead(Row(), now)
    {
      inflight.None? && (value.None? || expiresAt <= now)
    }

    constructor (lastAccess: nat, ghost ref: Ref)
      ensures Row() == NEW_ENTRY.(lastAccess := lastAccess) && this.ref == ref
    {
      this.ref := ref;
      value, expiresAt, generation, nextGeneration := None, 0, 0, 1;
      inflight, inflightKind, cooldowns := None, Load, [];
      this.lastAccess := lastAccess;
    }

    /** rememberMissingKid: the cooldowns are kept in the order in which they were set. */
    method RememberMissingKid(jwks: Reply, missingKid: Option<Kid>, at: Instant)
      modifies this`cooldowns
      ensures cooldowns == Remembered(old(cooldowns), jwks, missingKid, at)
    {
      if missingKid.None? { return; }
      var live := StillCooling(cooldowns, missingKid.value, at);
      if missingKid.value !in jwks.kids { live := live + [Cooldown(missingKid.value, at + COOLDOWN)]; }
      cooldowns := Newest(live);
    }

    /** An older generation never replaces a newer one. */
    method Accept(reply: Reply, requestGeneration: nat, requestKind: Kind, missingKid: Option<Kid>, at: Instant)
      modifies this
      ensures Row() ==
                if requestGeneration < old(generation) then old(Row())
                else old(Row()).(value := Some(reply), expiresAt := at + LIFETIME, generation := requestGeneration,
                                 cooldowns := if requestKind.Load? then [] else Remembered(old(cooldowns), reply, missingKid, at))
    {
      if requestGeneration >= generation {
        value := Some(reply);
        expiresAt := at + LIFETIME;
        generation := requestGeneration;
        if requestKind == Load { cooldowns := []; }
        else { RememberMissingKid(reply, missingKid, at); }
      }
    }

    method IsCoolingDown(missingKid: Option<Kid>, now: Instant) returns (yes: bool)
      ensures yes <==> CoolingDown(Row(), missingKid, now)
    {
      if value.None? { return false; }
      for i := 0 to |cooldowns|
        invariant forall j :: 0 <= j < i ==> !(missingKid == Some(cooldowns[j].kid) && cooldowns[j].until > now)
      {
        if missingKid == Some(cooldowns[i].kid) && cooldowns[i].until > now { return true; }
      }
      return false;
    }
  }

  /** What a call comes to before it first waits. */
  datatype Answer = Refused | Cached(reply: Reply) | Joined(fetch: Request) | Fetching

  // ---------- eviction ----------

  /** Evicting from one table or from the other leaves the same entries. */
  ghost predicate Alike(before: map<Key, Ref>, table: map<Key, Ref>, entries: map<Ref, Entry>, target: nat)
  {
    Backed(before, entries) && Backed(table, entries)
    && EvictedDown(before, entries, target) == EvictedDown(table, entries, target)
  }

  lemma EvictedStep(table: map<Key, Ref>, entries: map<Ref, Entry>, k: Key, target: nat)
    requires Backed(table, entries) && |table| > target && FirstToGo(table, entries, k)
    ensures Alike(table, table - {k}, entries, target)
  {
    forall other | FirstToGo(table, entries, other) ensures other == k {
      assert Before(table, entries, k, other) && Before(table, entries, other, k);
    }
    assert Idle(table, entries, k);
  }

  /** A fetch of every entry is under way. */
  ghost predicate NoneIdle(table: map<Key, Ref>, entries: map<Ref, Entry>)
    requires Backed(table, entries)
  {
    forall k :: k in table ==> !Idle(table, entries, k)
  }

  lemma EvictedDone(table: map<Key, Ref>, entries: map<Ref, Entry>, target: nat)
    requires Backed(table, entries)
    requires |table| <= target || NoneIdle(table, entries)
    ensures EvictedDown(table, entries, target) == table
  {
  }

  class Cache {
    var clock: Instant
    var nextAccess: nat
    var table: map<Key, CacheEntry>
    ghost var objects: map<Ref, CacheEntry>
    ghost var fetches: map<Request, Fetch>
    ghost var waiting: map<Waiter, Waiting>
    ghost var replies: map<(Ref, nat), Reply>

    ghost predicate Linked()
      reads `table, `objects
    {
      && (forall r :: r in objects ==> objects[r].ref == r)
      && (forall k :: k in table ==> table[k].ref in objects && objects[table[k].ref] == table[k])
    }

    ghost function Refs(): map<Key, Ref>
      reads `table
    {
      map k | k in table :: table[k].ref
    }

    ghost function Rows(): map<Ref, Entry>
      reads `objects, objects.Values
    {
      map r | r in objects :: objects[r].Row()
    }

    ghost function View(): State
      reads this, objects.Values
    {
      State(clock, nextAccess, Refs(), Rows(), fetches, waiting, replies)
    }

    ghost predicate Valid()
      reads this, objects.Values
    {
      Linked() && Inv(View())
    }

    // ---------- pruning ----------

    method Sweep(now: Instant)
      requires Linked()
      modifies this`table
      ensures Linked() && Refs() == Swept(old(Refs()), old(Rows()), now) && table.Keys <= old(table.Keys)
    {
      hide Dead;
      var todo := table.Keys;
      while todo != {}
        invariant todo <= table.Keys <= old(table.Keys)
        invariant forall k :: k in table ==> table[k] == old(table)[k]
        invariant forall k :: k in old(table) && k !in todo ==> (k in table <==> !Dead(old(table)[k].Row(), now))
        decreases |todo|
      {
        var k :| k in todo;
        todo := todo - {k};
        if table[k].Stale(now) { table := table - {k}; }
      }
      AllSwept(old(table), now);
    }

    lemma AllSwept(before: map<Key, CacheEntry>, now: Instant)
      requires forall k :: k in before ==> before[k].ref in objects && objects[before[k].ref] == before[k]
      requires table.Keys <= before.Keys
      requires forall k :: k in table ==> table[k] == before[k]
      requires forall k :: k in before ==> (k in table <==> !Dead(before[k].Row(), now))
      ensures Backed(map k | k in before :: before[k].ref, Rows())
      ensures Refs() == Swept(map k | k in before :: before[k].ref, Rows(), now)
    {
    }

    /** The idle entry that was used least recently. */
    method Candidate() returns (candidate: Option<Key>)
      requires Linked()
      ensures candidate.Some? ==> candidate.value in table && FirstToGo(Refs(), Rows(), candidate.value)
      ensures candidate.None? ==> NoneIdle(Refs(), Rows())
    {
      candidate := None;
      var todo := table.Keys;
      while todo != {}
        invariant todo <= table.Keys
        invariant candidate.Some? ==> candidate.value in table && Idle(Refs(), Rows(), candidate.value)
        invariant forall k :: k in Refs() && k !in todo && Idle(Refs(), Rows(), k) ==>
                    candidate.Some? && Before(Refs(), Rows(), candidate.value, k)
        decreases |todo|
      {
        var k :| k in todo;
        todo := todo - {k};
        if table[k].inflight.None? {
          if candidate.None? { candidate := Some(k); }
          else {
            var a, b := table[k].lastAccess, table[candidate.value].lastAccess;
            if a < b || (a == b && k <= candidate.value) { candidate := Some(k); }
          }
        }
      }
    }

    method Remove(k: Key)
      requires Linked() && k in table
      modifies this`table
      ensures Linked() && Refs() == old(Refs()) - {k} && |table| < old(|table|) && table.Keys <= old(table.Keys)
    {
      Smaller(Refs(), k);
      SameSize();
      ghost var refs := Refs();
      table := table - {k};
      assert Refs() == refs - {k};
      SameSize();
    }

    /** One round of the eviction loop. */
    method EvictOne(targetSize: nat) returns (found: bool)
      requires Linked() && Backed(Refs(), Rows()) && |table| > targetSize
      modifies this`table
      ensures Linked() && Backed(Refs(), Rows()) && table.Keys <= old(table.Keys)
      ensures found ==> |table| < old(|table|)
      ensures found ==> Alike(old(Refs()), Refs(), Rows(), targetSize)
      ensures !found ==> Refs() == old(Refs()) && NoneIdle(Refs(), Rows())
    {
      hide FirstToGo, Idle, NoneIdle, Alike, Refs, Rows, Linked, Backed;
      SameSize();
      var candidate := Candidate();
      if candidate.None? { return false; }
      EvictedStep(Refs(), Rows(), candidate.value, targetSize);
      Remove(candidate.value);
      Placed();
      return true;
    }

    method Evict(targetSize: nat)
      requires Linked() && Backed(Refs(), Rows())
      modifies this`table
      ensures Linked() && Refs() == EvictedDown(old(Refs()), old(Rows()), targetSize) && table.Keys <= old(table.Keys)
    {
      hide EvictedDown, Refs, Rows, Linked, Backed;
      ghost var before := Refs();
      while |table| > targetSize
        invariant Linked() && Backed(Refs(), Rows()) && table.Keys <= old(table.Keys)
        invariant Alike(before, Refs(), Rows(), targetSize)
        decreases |table|
      {
        var found := EvictOne(targetSize);
        if !found { break; }
      }
      SameSize();
      EvictedDone(Refs(), Rows(), targetSize);
    }

    /** pruneMicrosoftOidcCacheMap. */
    method Prune(now: Instant, maximumSize: nat, reserveSlot: bool)
      requires Linked()
      modifies this`table
      ensures Linked()
      ensures Refs() == Pruned(old(Refs()), old(Rows()), now, if reserveSlot && maximumSize > 0 then maximumSize - 1 else maximumSize)
      ensures table.Keys <= old(table.Keys)
    {
      hide EvictedDown, Swept, Refs, Rows, Linked, Backed;
      Sweep(now);
      Placed();
      Evict(if reserveSlot && maximumSize > 0 then maximumSize - 1 else maximumSize);
    }

    lemma Placed()
      requires Linked()
      ensures Backed(Refs(), Rows())
    {
    }

    lemma SameSize()
      ensures Refs().Keys == table.Keys && |Refs()| == |table|
    {
      assert Refs().Keys == table.Keys;
      assert |Refs().Keys| == |Refs()| && |table.Keys| == |table|;
    }

    // ---------- calls ----------

    ghost predicate Holds(state: CacheEntry)
      reads `objects
    {
      state.ref in objects && objects[state.ref] == state
    }

    twostate lemma OneRewritten(state: CacheEntry)
      requires Linked() && Holds(state) && objects == old(objects)
      requires forall o :: o in objects.Values && o != state ==> o.Row() == old(o.Row())
      ensures Rows() == old(Rows())[state.ref := state.Row()]
    {
    }

    /** Stamp a request, start it, and mark the entry with it. */
    method Start(state: CacheEntry, ask: Ask, fetch: Request)
      requires Linked() && Holds(state)
      modifies `fetches, state
      ensures Linked() && View() == Started(old(View()), state.ref, ask, fetch) && state.inflight == Some(fetch)
    {
      var requestGeneration := state.nextGeneration;
      state.nextGeneration := state.nextGeneration + 1;
      var requestKind := if ask.force then Rollover else Load;
      fetches := fetches[fetch := Fetch(state.ref, requestGeneration, requestKind, ask.missingKid, Running)];
      state.inflight := Some(fetch);
      state.inflightKind := requestKind;
      OneRewritten(state);
    }

    /** From the found entry to the first await. */
    method Consult(state: CacheEntry, ask: Ask, fetch: Request, waiter: Waiter) returns (answer: Answer)
      requires Linked() && Holds(state)
      modifies `fetches, `waiting, state
      ensures Linked() && View() == Answered(old(View()), state.ref, ask, fetch, waiter)
      ensures answer.Cached? ==> state.value == Some(answer.reply)
      ensures answer.Joined? ==> state.inflight == Some(answer.fetch)
      ensures answer.Fetching? ==> state.inflight == Some(fetch)
      ensures !answer.Refused?
    {
      if ask.force {
        if ask.observed.Some? && state.generation != ask.observed.value && state.value.Some? {
          state.RememberMissingKid(state.value.value, ask.missingKid, clock);
          OneRewritten(state);
          return Cached(state.value.value);
        }
        var cooling := state.IsCoolingDown(ask.missingKid, clock);
        if cooling { return Cached(state.value.value); }
      } else if state.value.Some? && state.expiresAt > clock {
        return Cached(state.value.value);
      }
      if state.inflight.Some? {
        waiting := waiting[waiter := Waiting(state.ref, state.inflight.value, state.inflightKind, ask)];
        return Joined(state.inflight.value);
      }
      Start(state, ask, fetch);
      return Fetching;
    }

    method Touch(state: CacheEntry)
      requires Linked() && Holds(state)
      modifies `nextAccess, state`lastAccess
      ensures Linked()
      ensures View() == Update(old(View()), state.ref, old(View()).entries[state.ref].(lastAccess := old(nextAccess))).(nextAccess := old(nextAccess) + 1)
    {
      state.lastAccess := nextAccess;
      nextAccess := nextAccess + 1;
      OneRewritten(state);
    }

    /** The entry is in the map; the call uses it. */
    method Use(key: Key, ask: Ask, fetch: Request, waiter: Waiter) returns (answer: Answer)
      requires Linked() && key in table
      modifies `nextAccess, `fetches, `waiting, table[key]
      ensures Linked() && View() == Found(old(View()), old(Refs())[key], ask, fetch, waiter)
      ensures !answer.Refused? && (answer.Cached? ==> table[key].value == Some(answer.reply))
    {
      var state := table[key];
      Touch(state);
      answer := Consult(state, ask, fetch, waiter);
    }

    method Insert(key: Key, ghost newRef: Ref) returns (state: CacheEntry)
      requires Linked() && newRef !in objects
      modifies `table, `objects, `nextAccess
      ensures Linked() && fresh(state) && state.ref == newRef && Holds(state)
      ensures table == old(table)[key := state] && objects == old(objects)[newRef := state]
      ensures nextAccess == old(nextAccess) + 2
      ensures Rows() == old(Rows())[newRef := NEW_ENTRY.(lastAccess := old(nextAccess) + 1)]
    {
      state := new CacheEntry(nextAccess, newRef);
      nextAccess := nextAccess + 1;
      objects := objects[newRef := state];
      table := table[key := state];
      state.lastAccess := nextAccess;
      nextAccess := nextAccess + 1;
    }

    lemma RefAdded(refs: map<Key, Ref>, before: map<Key, CacheEntry>, key: Key, state: CacheEntry)
      requires refs == (map k | k in before :: before[k].ref) && table == before[key := state]
      ensures Refs() == refs[key := state.ref]
    {
    }

    /** There is no entry, and there is room for one. */
    method Add(key: Key, ask: Ask, fetch: Request, waiter: Waiter, ghost newRef: Ref) returns (answer: Answer)
      requires Linked() && newRef !in objects
      modifies `table, `objects, `nextAccess, `fetches, `waiting
      ensures Linked() && key in table && fresh(objects.Values - old(objects.Values))
      ensures View() == Added(old(View()), key, ask, newRef, fetch, waiter)
      ensures !answer.Refused? && (answer.Cached? ==> table[key].value == Some(answer.reply))
    {
      hide Answered, Rows;
      var state := Insert(key, newRef);
      RefAdded(old(Refs()), old(table), key, state);
      hide Refs;
      answer := Consult(state, ask, fetch, waiter);
    }

    /** There is no entry after the first pruning. */
    method Miss(key: Key, ask: Ask, fetch: Request, waiter: Waiter, ghost newRef: Ref) returns (answer: Answer)
      requires Linked() && Backed(Refs(), Rows()) && key !in table && newRef !in objects
      modifies `table, `objects, `nextAccess, `fetches, `waiting
      ensures Linked() && fresh(objects.Values - old(objects.Values))
      ensures View() == Missed(old(View()), Pruned(old(Refs()), old(Rows()), clock, MAX_ENTRIES - 1), key, ask, newRef, fetch, waiter)
      ensures answer.Refused? <==> key !in table
      ensures answer.Cached? ==> table[key].value == Some(answer.reply)
    {
      hide Pruned, Added, Rows, Refs, Linked, Backed;
      ghost var s, room := View(), Pruned(Refs(), Rows(), clock, MAX_ENTRIES - 1);
      Prune(clock, MAX_ENTRIES, true);
      assert View() == s.(table := room);
      SameSize();
      if |table| >= MAX_ENTRIES {
        nextAccess := nextAccess + 1;
        assert View() == s.(table := room, nextAccess := s.nextAccess + 1);
        return Refused;
      }
      answer := Add(key, ask, fetch, waiter, newRef);
    }

    /** A call in a cache whose table is backed by its entries. */
    method Serve(key: Key, ask: Ask, fetch: Request, waiter: Waiter, ghost newRef: Ref) returns (answer: Answer)
      requires Linked() && Backed(Refs(), Rows()) && newRef !in objects
      modifies this, objects.Values
      ensures Linked() && fresh(objects.Values - old(objects.Values))
      ensures View() == Called(old(View()), key, ask, newRef, fetch, waiter)
      ensures answer.Refused? <==> key !in table
      ensures answer.Cached? ==> table[key].value == Some(answer.reply)
    {
      hide Pruned, Found, Added, Rows, Answered, Update, Started;
      Prune(clock, MAX_ENTRIES, false);
      SameSize();
      Placed();
      assert View() == old(View()).(table := Refs());
      assert key in table ==> Refs()[key] == table[key].ref;
      hide Refs, Backed;
      if key in table {
        assert objects[table[key].ref] in objects.Values;
        answer := Use(key, ask, fetch, waiter);
      } else {
        answer := Miss(key, ask, fetch, waiter, newRef);
      }
    }

    // ---------- the ends of fetches, and callers that go on ----------

    lemma RowOf(state: CacheEntry)
      requires Holds(state)
      ensures state.ref in Rows() && Rows()[state.ref] == state.Row()
    {
    }

    /** A reply arrives at the entry that its fetch captured. */
    method Land(state: CacheEntry, reply: Reply, requestGeneration: nat, requestKind: Kind, missingKid: Option<Kid>)
      requires Linked() && Holds(state)
      modifies state
      ensures Rows() == old(Rows())[state.ref := state.Row()]
      ensures state.Row() ==
                if requestGeneration < old(state.generation) then old(state.Row())
                else old(state.Row()).(value := Some(reply), expiresAt := clock + LIFETIME, generation := requestGeneration,
                                       cooldowns := if requestKind.Load? then [] else Remembered(old(state.cooldowns), reply, missingKid, clock))
    {
      state.Accept(reply, requestGeneration, requestKind, missingKid, clock);
      OneRewritten(state);
    }

    /** The end of a fetch, as it changes the entry that it captured. */
    method Finish(fetch: Request, state: CacheEntry, requestGeneration: nat, requestKind: Kind, missingKid: Option<Kid>, outcome: Option<Reply>)
      returns (result: Option<Reply>)
      requires Linked() && Holds(state)
      requires fetch in fetches && fetches[fetch] == Fetch(state.ref, requestGeneration, requestKind, missingKid, Running)
      modifies `fetches, `replies, state
      ensures Linked() && View() == Settled(old(View()), fetch, outcome)
      ensures result == if outcome.None? then None else state.value
    {
      RowOf(state);
      hide Remembered, Rows, Refs, Linked, Holds;
      if outcome.None? {
        fetches := fetches[fetch := Fetch(state.ref, requestGeneration, requestKind, missingKid, Failed)];
        return None;
      }
      var reply := outcome.value;
      Land(state, reply, requestGeneration, requestKind, missingKid);
      result := state.value;
      fetches := fetches[fetch := Fetch(state.ref, requestGeneration, requestKind, missingKid, Succeeded(if result.Some? then result.value else reply))];
      replies := replies[(state.ref, requestGeneration) := reply];
    }

    /** The cleanup behind a fetch, as it changes the entry. */
    method CleanUp(fetch: Request, state: CacheEntry)
      requires Linked() && Holds(state) && fetch in fetches && fetches[fetch].ref == state.ref
      requires !fetches[fetch].progress.Running? && Inv(View())
      modifies state
      ensures Linked() && View() == Next(old(View()), Step.Release(fetch))
    {
      hide Inv, Called, Settled, Resumed;
      if state.inflight == Some(fetch) { state.inflight := None; }
      OneRewritten(state);
    }

    /** What a caller does after a shared fetch, as it changes the entry. */
    method GoOn(waiter: Waiter, state: CacheEntry, sharedKind: Kind, ask: Ask, shared: Reply, newFetch: Request) returns (answer: Answer)
      requires Linked() && Holds(state) && waiter in waiting
      requires waiting[waiter].ref == state.ref && waiting[waiter].kind == sharedKind && waiting[waiter].ask == ask
      modifies `fetches, `waiting, state
      ensures Linked()
      ensures View() == Resumed(old(View()).(waiting := old(waiting) - {waiter}), old(waiting[waiter]), shared, newFetch)
      ensures answer == Cached(shared) || (answer.Cached? && state.value == Some(answer.reply)) || (answer.Fetching? && state.inflight == Some(newFetch))
    {
      waiting := waiting - {waiter};
      if !ask.force { return Cached(shared); }
      if sharedKind == Rollover {
        state.RememberMissingKid(shared, ask.missingKid, clock);
        OneRewritten(state);
        return Cached(shared);
      }
      if ask.observed.Some? && state.generation != ask.observed.value {
        if state.value.Some? {
          state.RememberMissingKid(state.value.value, ask.missingKid, clock);
          OneRewritten(state);
        }
        return Cached(if state.value.Some? then state.value.value else shared);
      }
      var cooling := state.IsCoolingDown(ask.missingKid, clock);
      if cooling { return Cached(state.value.value); }
      Start(state, ask, newFetch);
      return Fetching;
    }

    /** In a valid cache an answer from an entry is the newest reply that was ever fetched for it. */
    lemma AnswerIsNewest(state: CacheEntry)
      requires Valid() && Holds(state) && state.value.Some?
      ensures (state.ref, state.generation) in replies && state.value == Some(replies[(state.ref, state.generation)])
      ensures forall g :: (state.ref, g) in replies ==> g <= state.generation
    {
      assert EntrySound(View(), state.ref);
      assert Rows()[state.ref] == state.Row();
    }

    // ---------- the steps of OidcCache ----------

    twostate lemma StepKeepsValid(step: Step)
      requires old(Valid()) && Enabled(old(View()), step) && Linked() && View() == Next(old(View()), step)
      ensures Valid()
    {
      NextKeeps(old(View()), step);
    }

    /** A call, from its first line to its first await. */
    method Call(key: Key, ask: Ask, fetch: Request, waiter: Waiter, ghost newRef: Ref) returns (answer: Answer)
      requires Valid() && Enabled(View(), Step.Call(key, ask, newRef, fetch, waiter))
      modifies this, objects.Values
      ensures Valid() && fresh(objects.Values - old(objects.Values))
      ensures View() == Next(old(View()), Step.Call(key, ask, newRef, fetch, waiter))
      ensures answer.Refused? <==> key !in table
      ensures answer.Cached? ==> table[key].value == Some(answer.reply)
    {
      hide Inv, Called, Linked, Refs, Rows;
      InvBacked(View());
      RowKeys();
      answer := Serve(key, ask, fetch, waiter, newRef);
      StepKeepsValid(Step.Call(key, ask, newRef, fetch, waiter));
    }

    lemma RowKeys()
      ensures Rows().Keys == objects.Keys
    {
    }

    /** The end of a fetch, with what it captured when it started. */
    method Settle(fetch: Request, state: CacheEntry, requestGeneration: nat, requestKind: Kind, missingKid: Option<Kid>, outcome: Option<Reply>)
      returns (result: Option<Reply>)
      requires Valid() && Holds(state)
      requires fetch in fetches && fetches[fetch] == Fetch(state.ref, requestGeneration, requestKind, missingKid, Running)
      modifies `fetches, `replies, state
      ensures Valid() && View() == Next(old(View()), Step.Settle(fetch, outcome))
      ensures result == if outcome.None? then None else state.value
    {
      hide Inv, Settled, Linked, Refs, Rows;
      result := Finish(fetch, state, requestGeneration, requestKind, missingKid, outcome);
      StepKeepsValid(Step.Settle(fetch, outcome));
    }

    /** The cleanup behind a fetch: only the fetch that the entry is marked with clears the mark. */
    method Release(fetch: Request, state: CacheEntry)
      requires Valid() && Holds(state) && fetch in fetches && fetches[fetch].ref == state.ref && !fetches[fetch].progress.Running?
      modifies state
      ensures Valid() && View() == Next(old(View()), Step.Release(fetch))
    {
      hide Inv, Linked, Refs, Rows;
      CleanUp(fetch, state);
      StepKeepsValid(Step.Release(fetch));
    }

    /** A caller goes on after the fetch that it shared has succeeded. */
    method Resume(waiter: Waiter, state: CacheEntry, sharedKind: Kind, ask: Ask, shared: Reply, newFetch: Request) returns (answer: Answer)
      requires Valid() && Holds(state) && Enabled(View(), Step.Resume(waiter, newFetch))
      requires waiting[waiter].ref == state.ref && waiting[waiter].kind == sharedKind && waiting[waiter].ask == ask
      requires fetches[waiting[waiter].fetch].progress == Succeeded(shared)
      modifies `fetches, `waiting, state
      ensures Valid() && View() == Next(old(View()), Step.Resume(waiter, newFetch))
      ensures answer == Cached(shared) || (answer.Cached? && state.value == Some(answer.reply)) || (answer.Fetching? && state.inflight == Some(newFetch))
    {
      hide Inv, Resumed, Linked, Refs, Rows;
      answer := GoOn(waiter, state, sharedKind, ask, shared, newFetch);
      StepKeepsValid(Step.Resume(waiter, newFetch));
    }
  }
}
