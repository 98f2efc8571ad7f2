/** The generation-stamped cache of Microsoft discovery documents and signing keys
    (src/auth-runtime.ts).  Calls, the outcomes of fetches, the cleanup behind them and the callers
    that waited for a shared fetch interleave arbitrarily.  A call that never forces a refresh is
    the discovery cache's call; one that may is the signing keys'.  Cache entries are objects: a
    fetch keeps the entry it started from even when the entry has left the cache. */
module OidcCache {

  type Key = nat
  type Ref = nat
  type Request = nat
  type Waiter = nat
  type Kid = string
  type Instant = nat

  const MAX_ENTRIES: nat := 32
  const LIFETIME: Instant := 300_000
  const COOLDOWN: Instant := 10_000
  const MAX_COOLDOWNS: nat := 64

  datatype Option<T> = None | Some(value: T)

  /** A fetched document, with the key ids it lists. */
  datatype Reply = Reply(kids: set<Kid>, body: string)

  datatype Kind = Load | Rollover

  datatype Cooldown = Cooldown(kid: Kid, until: Instant)

  datatype Entry = Entry(
    value: Option<Reply>,
    expiresAt: Instant,
    generation: nat,
    nextGeneration: nat,
    inflight: Option<Request>,
    kind: Kind,
    cooldowns: seq<Cooldown>,
    lastAccess: nat
  )

  datatype Progress = Running | Succeeded(shared: Reply) | Failed

  /** A fetch under way or finished, with the generation it was stamped with. */
  datatype Fetch = Fetch(ref: Ref, generation: nat, kind: Kind, missingKid: Option<Kid>, progress: Progress)

  /** What a caller asks for, apart from the key. */
  datatype Ask = Ask(force: bool, observed: Option<nat>, missingKid: Option<Kid>)

  /** A caller that awaits the fetch of somebody else. */
  datatype Waiting = Waiting(ref: Ref, fetch: Request, kind: Kind, ask: Ask)

  datatype State = State(
    clock: Instant,
    nextAccess: nat,
    table: map<Key, Ref>,
    entries: map<Ref, Entry>,
    fetches: map<Request, Fetch>,
    waiting: map<Waiter, Waiting>,
    replies: map<(Ref, nat), Reply>
  )

  // ---------- pruning ----------

  predicate Dead(e: Entry, now: Instant) {
    e.inflight.None? && (e.value.None? || e.expiresAt <= now)
  }

  ghost predicate Backed(table: map<Key, Ref>, entries: map<Ref, Entry>) {
    forall k :: k in table ==> table[k] in entries
  }

  function Swept(table: map<Key, Ref>, entries: map<Ref, Entry>, now: Instant): map<Key, Ref>
    requires Backed(table, entries)
  {
    map k | k in table && !Dead(entries[table[k]], now) :: table[k]
  }

  predicate Idle(table: map<Key, Ref>, entries: map<Ref, Entry>, k: Key)
    requires Backed(table, entries)
  {
    k in table && entries[table[k]].inflight.None?
  }

  /** Eviction order: by last access, then by key. */
  predicate Before(table: map<Key, Ref>, entries: map<Ref, Entry>, k: Key, other: Key)
    requires Backed(table, entries) && k in table && other in table
  {
    var a, b := entries[table[k]].lastAccess, entries[table[other]].lastAccess;
    a < b || (a == b && k <= other)
  }

  ghost predicate FirstToGo(table: map<Key, Ref>, entries: map<Ref, Entry>, k: Key)
    requires Backed(table, entries)
  {
    Idle(table, entries, k) && forall other :: Idle(table, entries, other) ==> Before(table, entries, k, other)
  }

  lemma {:induction false} FirstExists(table: map<Key, Ref>, entries: map<Ref, Entry>, candidates: set<Key>) returns (k: Key)
    requires Backed(table, entries) && candidates != {}
    requires forall c :: c in candidates ==> Idle(table, entries, c)
    ensures k in candidates && k in table && forall c :: c in candidates ==> c in table && Before(table, entries, k, c)
    decreases |candidates|
  {
    k :| k in candidates;
    var rest := candidates - {k};
    if rest != {} {
      var r := FirstExists(table, entries, rest);
      assert forall c :: c in candidates ==> c == k || c in rest;
      if Before(table, entries, r, k) { k := r; }
    }
  }

  lemma SomeFirstToGo(table: map<Key, Ref>, entries: map<Ref, Entry>, any: Key)
    requires Backed(table, entries) && Idle(table, entries, any)
    ensures exists k :: FirstToGo(table, entries, k)
  {
    var candidates := set c | c in table && Idle(table, entries, c);
    assert any in candidates;
    var k := FirstExists(table, entries, candidates);
    assert FirstToGo(table, entries, k);
  }

  /** The eviction loop: the least recently used idle entries go until the cache fits. */
  ghost function EvictedDown(table: map<Key, Ref>, entries: map<Ref, Entry>, target: nat): (t: map<Key, Ref>)
    requires Backed(table, entries)
    ensures forall k :: k in t ==> k in table && t[k] == table[k]
    ensures forall k :: k in table && entries[table[k]].inflight.Some? ==> k in t
    ensures |t| <= |table|
    ensures |t| <= target || forall k :: k in t ==> entries[t[k]].inflight.Some?
    decreases |table|
  {
    if |table| <= target then table
    else if !(exists k :: Idle(table, entries, k)) then
      assert forall k :: k in table ==> !Idle(table, entries, k);
      table
    else
      var any :| Idle(table, entries, any);
      SomeFirstToGo(table, entries, any);
      var k :| FirstToGo(table, entries, k);
      assert |table - {k}| == |table| - 1 by { Smaller(table, k); }
      EvictedDown(table - {k}, entries, target)
  }

  lemma Smaller(table: map<Key, Ref>, k: Key)
    requires k in table
    ensures |table - {k}| == |table| - 1
  {
    assert (table - {k}).Keys == table.Keys - {k};
    assert |table.Keys| == |table|;
    assert |(table - {k}).Keys| == |table - {k}|;
  }

  /** pruneMicrosoftOidcCacheMap. */
  ghost function Pruned(table: map<Key, Ref>, entries: map<Ref, Entry>, now: Instant, target: nat): map<Key, Ref>
    requires Backed(table, entries)
  {
    EvictedDown(Swept(table, entries, now), entries, target)
  }

  // ---------- cooldowns of key ids that were not found ----------

  function LiveCooldowns(cooldowns: seq<Cooldown>, kid: Kid, at: Instant): seq<Cooldown> {
    if cooldowns == [] then []
    else if cooldowns[0].until <= at || cooldowns[0].kid == kid then LiveCooldowns(cooldowns[1..], kid, at)
    else [cooldowns[0]] + LiveCooldowns(cooldowns[1..], kid, at)
  }

  /** rememberMissingKid: drop what is over, then start over for this key id if it is still missing. */
  function Remembered(cooldowns: seq<Cooldown>, reply: Reply, missingKid: Option<Kid>, at: Instant): seq<Cooldown> {
    if missingKid.None? then cooldowns
    else
      var live := LiveCooldowns(cooldowns, missingKid.value, at);
      var all := if missingKid.value in reply.kids then live else live + [Cooldown(missingKid.value, at + COOLDOWN)];
      if |all| > MAX_COOLDOWNS then all[|all| - MAX_COOLDOWNS..] else all
  }

  predicate CoolingDown(e: Entry, missingKid: Option<Kid>, now: Instant) {
    e.value.Some? && exists i :: 0 <= i < |e.cooldowns| && missingKid == Some(e.cooldowns[i].kid) && e.cooldowns[i].until > now
  }

  // ---------- steps ----------

  datatype Step =
    | Tick(to: Instant)
    | Call(key: Key, ask: Ask, newRef: Ref, fetch: Request, waiter: Waiter)
    | Settle(fetch: Request, outcome: Option<Reply>)
    | Release(fetch: Request)
    | Resume(waiter: Waiter, newFetch: Request)

  predicate Moved(e: Entry, ask: Ask) {
    ask.observed.Some? && e.generation != ask.observed.value
  }

  function Update(s: State, ref: Ref, e: Entry): State {
    s.(entries := s.entries[ref := e])
  }

  /** Stamp and start a fetch, and mark the entry with it. */
  function Started(s: State, ref: Ref, ask: Ask, fetch: Request): State
    requires ref in s.entries
  {
    var e := s.entries[ref];
    var kind := if ask.force then Rollover else Load;
    Update(s, ref, e.(nextGeneration := e.nextGeneration + 1, inflight := Some(fetch), kind := kind))
      .(fetches := s.fetches[fetch := Fetch(ref, e.nextGeneration, kind, ask.missingKid, Running)])
  }

  /** loadMicrosoftJwks and discoverMicrosoftOpenIdConfiguration from the found entry to the first await. */
  function Answered(s: State, ref: Ref, ask: Ask, fetch: Request, waiter: Waiter): State
    requires ref in s.entries
  {
    var e := s.entries[ref];
    if ask.force && Moved(e, ask) && e.value.Some? then
      Update(s, ref, e.(cooldowns := Remembered(e.cooldowns, e.value.value, ask.missingKid, s.clock)))
    else if ask.force && CoolingDown(e, ask.missingKid, s.clock) then s
    else if !ask.force && e.value.Some? && e.expiresAt > s.clock then s
    else if e.inflight.Some? then
      s.(waiting := s.waiting[waiter := Waiting(ref, e.inflight.value, e.kind, ask)])
    else Started(s, ref, ask, fetch)
  }

  const NEW_ENTRY: Entry := Entry(None, 0, 0, 1, None, Load, [], 0)

  /** The entry is used now. */
  function Touched(s: State, ref: Ref): State
    requires ref in s.entries
  {
    Update(s, ref, s.entries[ref].(lastAccess := s.nextAccess)).(nextAccess := s.nextAccess + 1)
  }

  /** The entry was found after the first prune. */
  function Found(s: State, ref: Ref, ask: Ask, fetch: Request, waiter: Waiter): State
    requires ref in s.entries
  {
    Answered(Touched(s, ref), ref, ask, fetch, waiter)
  }

  /** A new entry, used now. */
  function Entered(s: State, key: Key, newRef: Ref): State {
    Update(s, newRef, NEW_ENTRY.(lastAccess := s.nextAccess + 1)).(table := s.table[key := newRef], nextAccess := s.nextAccess + 2)
  }

  /** There was none, and there is room for a new one. */
  function Added(s: State, key: Key, ask: Ask, newRef: Ref, fetch: Request, waiter: Waiter): State {
    Answered(Entered(s, key, newRef), newRef, ask, fetch, waiter)
  }

  /** There was none; room is what the second prune left. */
  function Missed(s: State, room: map<Key, Ref>, key: Key, ask: Ask, newRef: Ref, fetch: Request, waiter: Waiter): State {
    if |room| >= MAX_ENTRIES then s.(table := room, nextAccess := s.nextAccess + 1)
    else Added(s.(table := room), key, ask, newRef, fetch, waiter)
  }

  ghost function Called(s: State, key: Key, ask: Ask, newRef: Ref, fetch: Request, waiter: Waiter): State
    requires Backed(s.table, s.entries)
  {
    var pruned := Pruned(s.table, s.entries, s.clock, MAX_ENTRIES);
    if key in pruned then Found(s.(table := pruned), pruned[key], ask, fetch, waiter)
    else Missed(s, Pruned(pruned, s.entries, s.clock, MAX_ENTRIES - 1), key, ask, newRef, fetch, waiter)
  }

  /** The end of a fetch: an older generation never replaces a newer one. */
  function Settled(s: State, fetch: Request, outcome: Option<Reply>): State
    requires fetch in s.fetches && s.fetches[fetch].ref in s.entries
  {
    var f := s.fetches[fetch];
    var e := s.entries[f.ref];
    if outcome.None? then s.(fetches := s.fetches[fetch := f.(progress := Failed)])
    else
      var reply := outcome.value;
      var e' := if f.generation >= e.generation then
          e.(value := Some(reply), expiresAt := s.clock + LIFETIME, generation := f.generation,
             cooldowns := if f.kind.Load? then [] else Remembered(e.cooldowns, reply, f.missingKid, s.clock))
        else e;
      Update(s, f.ref, e').(
        fetches := s.fetches[fetch := f.(progress := Succeeded(if e'.value.Some? then e'.value.value else reply))],
        replies := s.replies[(f.ref, f.generation) := reply])
  }

  /** A caller that awaited a shared fetch goes on: it may still start a fetch of its own, and it
      does so without looking at the marker again. */
  function Resumed(s: State, w: Waiting, shared: Reply, newFetch: Request): State
    requires w.ref in s.entries
  {
    var e := s.entries[w.ref];
    if !w.ask.force then s
    else if w.kind.Rollover? then
      Update(s, w.ref, e.(cooldowns := Remembered(e.cooldowns, shared, w.ask.missingKid, s.clock)))
    else if Moved(e, w.ask) then
      Update(s, w.ref, e.(cooldowns := if e.value.Some? then Remembered(e.cooldowns, e.value.value, w.ask.missingKid, s.clock) else e.cooldowns))
    else if CoolingDown(e, w.ask.missingKid, s.clock) then s
    else Started(s, w.ref, w.ask, newFetch)
  }

  predicate Enabled(s: State, step: Step) {
    match step
    case Tick(to) => s.clock <= to
    case Call(_, _, newRef, fetch, waiter) => newRef !in s.entries && fetch !in s.fetches && waiter !in s.waiting
    case Settle(fetch, _) => fetch in s.fetches && s.fetches[fetch].progress.Running?
    case Release(fetch) => fetch in s.fetches && !s.fetches[fetch].progress.Running?
    case Resume(waiter, newFetch) =>
      && waiter in s.waiting && newFetch !in s.fetches
      && s.waiting[waiter].fetch in s.fetches && !s.fetches[s.waiting[waiter].fetch].progress.Running?
  }

  ghost function Next(s: State, step: Step): State
    requires Inv(s) && Enabled(s, step)
  {
    match step
    case Tick(to) => s.(clock := to)
    case Call(key, ask, newRef, fetch, waiter) => Called(s, key, ask, newRef, fetch, waiter)
    case Settle(fetch, outcome) => Settled(s, fetch, outcome)
    case Release(fetch) =>
      var e := s.entries[s.fetches[fetch].ref];
      if e.inflight == Some(fetch) then Update(s, s.fetches[fetch].ref, e.(inflight := None)) else s
    case Resume(waiter, newFetch) =>
      var w := s.waiting[waiter];
      var s1 := s.(waiting := s.waiting - {waiter});
      match s.fetches[w.fetch].progress
      case Succeeded(shared) => Resumed(s1, w, shared, newFetch)
      case _ => s1
  }

  // ---------- the invariant ----------

  /** The value of an entry is the reply of the highest generation that has completed. */
  ghost predicate ValueIsNewest(s: State, ref: Ref)
    requires ref in s.entries
  {
    var e := s.entries[ref];
    && (e.value.None? <==> e.generation == 0)
    && (e.generation > 0 ==> (ref, e.generation) in s.replies && e.value == Some(s.replies[(ref, e.generation)]))
    && (forall g :: (ref, g) in s.replies ==> 0 < g <= e.generation)
  }

  ghost predicate EntrySound(s: State, ref: Ref)
    requires ref in s.entries
  {
    var e := s.entries[ref];
    && e.generation < e.nextGeneration
    && (e.inflight.Some? ==> e.inflight.value in s.fetches && s.fetches[e.inflight.value].ref == ref)
    && |e.cooldowns| <= MAX_COOLDOWNS
    && ValueIsNewest(s, ref)
  }

  ghost predicate FetchSound(s: State, fetch: Request)
    requires fetch in s.fetches
  {
    var f := s.fetches[fetch];
    && f.ref in s.entries
    && 0 < f.generation < s.entries[f.ref].nextGeneration
    && (f.progress.Running? ==> (f.ref, f.generation) !in s.replies)
    && (forall other :: other in s.fetches && other != fetch && s.fetches[other].ref == f.ref ==> s.fetches[other].generation != f.generation)
  }

  ghost predicate Inv(s: State) {
    && Backed(s.table, s.entries)
    && |s.table| <= MAX_ENTRIES
    && (forall ref :: ref in s.entries ==> EntrySound(s, ref))
    && (forall fetch :: fetch in s.fetches ==> FetchSound(s, fetch))
    && (forall w :: w in s.waiting ==> s.waiting[w].ref in s.entries && s.waiting[w].fetch in s.fetches && s.fetches[s.waiting[w].fetch].ref == s.waiting[w].ref)
    && (forall r :: r in s.replies ==> r.0 in s.entries)
  }

  lemma CooldownsBounded(cooldowns: seq<Cooldown>, kid: Kid, at: Instant)
    ensures |LiveCooldowns(cooldowns, kid, at)| <= |cooldowns|
  {
  }

  lemma RememberedBounded(cooldowns: seq<Cooldown>, reply: Reply, missingKid: Option<Kid>, at: Instant)
    requires |cooldowns| <= MAX_COOLDOWNS
    ensures |Remembered(cooldowns, reply, missingKid, at)| <= MAX_COOLDOWNS
  {
    if missingKid.Some? { CooldownsBounded(cooldowns, missingKid.value, at); }
  }

  /** Replacing an entry by one with the same value and generations. */
  predicate SameStamp(e: Entry, e': Entry) {
    && e'.value == e.value && e'.generation == e.generation && e'.nextGeneration == e.nextGeneration
    && (e'.inflight == e.inflight || e'.inflight.None?) && |e'.cooldowns| <= MAX_COOLDOWNS
  }

  lemma UpdateKeeps(s: State, ref: Ref, e': Entry)
    requires Inv(s) && ref in s.entries && SameStamp(s.entries[ref], e')
    ensures Inv(Update(s, ref, e'))
  {
    hide EntrySound, FetchSound, SameStamp;
    var n := Update(s, ref, e');
    forall r | r in n.entries ensures EntrySound(n, r) { UpdatedEntry(s, ref, e', r); }
    forall f | f in n.fetches ensures FetchSound(n, f) { UpdatedFetch(s, ref, e', f); }
  }

  lemma UpdatedEntry(s: State, ref: Ref, e': Entry, r: Ref)
    requires Inv(s) && ref in s.entries && SameStamp(s.entries[ref], e') && r in s.entries
    ensures EntrySound(Update(s, ref, e'), r)
  {
    hide FetchSound;
    assert EntrySound(s, r);
  }

  lemma UpdatedFetch(s: State, ref: Ref, e': Entry, f: Request)
    requires Inv(s) && ref in s.entries && SameStamp(s.entries[ref], e') && f in s.fetches
    ensures FetchSound(Update(s, ref, e'), f)
  {
    hide EntrySound;
    assert FetchSound(s, f);
  }

  lemma StartedKeeps(s: State, ref: Ref, ask: Ask, fetch: Request)
    requires Inv(s) && ref in s.entries && fetch !in s.fetches
    ensures Inv(Started(s, ref, ask, fetch))
  {
    hide EntrySound, FetchSound;
    var n := Started(s, ref, ask, fetch);
    forall r | r in n.entries ensures EntrySound(n, r) { StartedEntry(s, ref, ask, fetch, r); }
    forall f | f in n.fetches ensures FetchSound(n, f) { StartedFetch(s, ref, ask, fetch, f); }
    forall w | w in n.waiting ensures n.waiting[w].ref in n.entries && n.waiting[w].fetch in n.fetches && n.fetches[n.waiting[w].fetch].ref == n.waiting[w].ref {
      assert s.waiting[w].fetch in s.fetches;
    }
  }

  lemma StartedEntry(s: State, ref: Ref, ask: Ask, fetch: Request, r: Ref)
    requires Inv(s) && ref in s.entries && fetch !in s.fetches && r in s.entries
    ensures r in Started(s, ref, ask, fetch).entries && EntrySound(Started(s, ref, ask, fetch), r)
  {
    hide FetchSound;
    assert EntrySound(s, r);
  }

  lemma StartedFetch(s: State, ref: Ref, ask: Ask, fetch: Request, f: Request)
    requires Inv(s) && ref in s.entries && fetch !in s.fetches && (f == fetch || f in s.fetches)
    ensures f in Started(s, ref, ask, fetch).fetches && FetchSound(Started(s, ref, ask, fetch), f)
  {
    var n := Started(s, ref, ask, fetch);
    assert EntrySound(s, ref);
    if f != fetch { assert FetchSound(s, f); }
    forall other | other in n.fetches && other != f && n.fetches[other].ref == n.fetches[f].ref
      ensures n.fetches[other].generation != n.fetches[f].generation
    {
      if other != fetch { assert FetchSound(s, other); }
    }
  }

  lemma WaitingAdded(s: State, waiter: Waiter, w: Waiting)
    requires Inv(s) && w.ref in s.entries && w.fetch in s.fetches && s.fetches[w.fetch].ref == w.ref
    ensures Inv(s.(waiting := s.waiting[waiter := w]))
  {
    var n := s.(waiting := s.waiting[waiter := w]);
    forall r | r in n.entries ensures EntrySound(n, r) { assert EntrySound(s, r); }
    forall f | f in n.fetches ensures FetchSound(n, f) { assert FetchSound(s, f); }
  }

  lemma SoundEntry(s: State, ref: Ref)
    requires Inv(s) && ref in s.entries
    ensures var e := s.entries[ref];
            && |e.cooldowns| <= MAX_COOLDOWNS
            && (e.inflight.Some? ==> e.inflight.value in s.fetches && s.fetches[e.inflight.value].ref == ref)
  {
    assert EntrySound(s, ref);
  }

  lemma AnsweredKeeps(s: State, ref: Ref, ask: Ask, fetch: Request, waiter: Waiter)
    requires Inv(s) && ref in s.entries && fetch !in s.fetches
    ensures Inv(Answered(s, ref, ask, fetch, waiter))
  {
    hide Inv, Remembered, CoolingDown, Started, Update;
    var e := s.entries[ref];
    SoundEntry(s, ref);
    if ask.force && Moved(e, ask) && e.value.Some? {
      RememberedBounded(e.cooldowns, e.value.value, ask.missingKid, s.clock);
      UpdateKeeps(s, ref, e.(cooldowns := Remembered(e.cooldowns, e.value.value, ask.missingKid, s.clock)));
    } else if ask.force && CoolingDown(e, ask.missingKid, s.clock) {
    } else if !ask.force && e.value.Some? && e.expiresAt > s.clock {
    } else if e.inflight.Some? {
      WaitingAdded(s, waiter, Waiting(ref, e.inflight.value, e.kind, ask));
    } else {
      StartedKeeps(s, ref, ask, fetch);
    }
  }

  lemma EntryAdded(s: State, ref: Ref, e: Entry)
    requires Inv(s) && ref !in s.entries && e == NEW_ENTRY.(lastAccess := e.lastAccess)
    ensures Inv(Update(s, ref, e))
  {
    var n := Update(s, ref, e);
    forall r | r in n.entries ensures EntrySound(n, r) {
      if r != ref { assert EntrySound(s, r); }
    }
    forall f | f in n.fetches ensures FetchSound(n, f) {
      assert FetchSound(s, f);
    }
  }

  /** Only the table and the access counter differ. */
  lemma TableKeeps(s: State, table: map<Key, Ref>, nextAccess: nat)
    requires Inv(s) && Backed(table, s.entries) && |table| <= MAX_ENTRIES
    ensures Inv(s.(table := table, nextAccess := nextAccess))
  {
    var n := s.(table := table, nextAccess := nextAccess);
    forall r | r in n.entries ensures EntrySound(n, r) { assert EntrySound(s, r); }
    forall f | f in n.fetches ensures FetchSound(n, f) { assert FetchSound(s, f); }
  }

  lemma SweptSmaller(table: map<Key, Ref>, entries: map<Ref, Entry>, now: Instant)
    requires Backed(table, entries)
    ensures |Swept(table, entries, now)| <= |table|
  {
    var swept := Swept(table, entries, now);
    SubsetSmaller(swept.Keys, table.Keys);
    assert |swept| == |swept.Keys| && |table| == |table.Keys|;
  }

  lemma {:induction false} SubsetSmaller(a: set<Key>, b: set<Key>)
    requires a <= b
    ensures |a| <= |b|
    decreases |a|
  {
    if a != {} {
      var x :| x in a;
      SubsetSmaller(a - {x}, b - {x});
    }
  }

  lemma TouchedKeeps(s: State, ref: Ref)
    requires Inv(s) && ref in s.entries
    ensures Inv(Touched(s, ref))
  {
    hide Inv, Backed;
    SoundEntry(s, ref);
    var e := s.entries[ref].(lastAccess := s.nextAccess);
    UpdateKeeps(s, ref, e);
    InvBacked(Update(s, ref, e));
    TableKeeps(Update(s, ref, e), s.table, s.nextAccess + 1);
  }

  lemma FoundKeeps(s: State, ref: Ref, ask: Ask, fetch: Request, waiter: Waiter)
    requires Inv(s) && ref in s.entries && fetch !in s.fetches
    ensures Inv(Found(s, ref, ask, fetch, waiter))
  {
    hide Inv, Answered;
    TouchedKeeps(s, ref);
    AnsweredKeeps(Touched(s, ref), ref, ask, fetch, waiter);
  }

  lemma BackedMore(table: map<Key, Ref>, entries: map<Ref, Entry>, key: Key, ref: Ref, e: Entry)
    requires Backed(table, entries)
    ensures Backed(table[key := ref], entries[ref := e])
  {
  }

  lemma EnteredKeeps(s: State, key: Key, newRef: Ref)
    requires Inv(s) && newRef !in s.entries && |s.table| < MAX_ENTRIES
    ensures Inv(Entered(s, key, newRef))
  {
    hide Inv, Backed;
    var e := NEW_ENTRY.(lastAccess := s.nextAccess + 1);
    EntryAdded(s, newRef, e);
    InvBacked(s);
    OneMore(s.table, key, newRef);
    BackedMore(s.table, s.entries, key, newRef, e);
    TableKeeps(Update(s, newRef, e), s.table[key := newRef], s.nextAccess + 2);
  }

  lemma AddedKeeps(s: State, key: Key, ask: Ask, newRef: Ref, fetch: Request, waiter: Waiter)
    requires Inv(s) && newRef !in s.entries && fetch !in s.fetches && |s.table| < MAX_ENTRIES
    ensures Inv(Added(s, key, ask, newRef, fetch, waiter))
  {
    hide Inv, Answered;
    EnteredKeeps(s, key, newRef);
    AnsweredKeeps(Entered(s, key, newRef), newRef, ask, fetch, waiter);
  }

  lemma InvBacked(s: State)
    requires Inv(s)
    ensures Backed(s.table, s.entries) && |s.table| <= MAX_ENTRIES
  {
  }

  lemma PrunedKeeps(s: State, target: nat)
    requires Inv(s)
    ensures Backed(s.table, s.entries) && Inv(s.(table := Pruned(s.table, s.entries, s.clock, target)))
  {
    SweptSmaller(s.table, s.entries, s.clock);
    hide EntrySound, FetchSound, EvictedDown;
    TableKeeps(s, Pruned(s.table, s.entries, s.clock, target), s.nextAccess);
  }

  lemma CalledKeeps(s: State, key: Key, ask: Ask, newRef: Ref, fetch: Request, waiter: Waiter)
    requires Inv(s) && newRef !in s.entries && fetch !in s.fetches
    ensures Backed(s.table, s.entries) && Inv(Called(s, key, ask, newRef, fetch, waiter))
  {
    hide Inv, Pruned, Found, Missed;
    PrunedKeeps(s, MAX_ENTRIES);
    var pruned := Pruned(s.table, s.entries, s.clock, MAX_ENTRIES);
    var s1 := s.(table := pruned);
    InvBacked(s1);
    if key in pruned {
      FoundKeeps(s1, pruned[key], ask, fetch, waiter);
    } else {
      PrunedKeeps(s1, MAX_ENTRIES - 1);
      var room := Pruned(pruned, s.entries, s.clock, MAX_ENTRIES - 1);
      assert s1.(table := room) == s.(table := room);
      MissedKeeps(s, room, key, ask, newRef, fetch, waiter);
    }
  }

  lemma MissedKeeps(s: State, room: map<Key, Ref>, key: Key, ask: Ask, newRef: Ref, fetch: Request, waiter: Waiter)
    requires Inv(s) && Inv(s.(table := room)) && newRef !in s.entries && fetch !in s.fetches
    ensures Inv(Missed(s, room, key, ask, newRef, fetch, waiter))
  {
    hide Inv, Added, Backed;
    InvBacked(s.(table := room));
    if |room| >= MAX_ENTRIES {
      TableKeeps(s, room, s.nextAccess + 1);
    } else {
      AddedKeeps(s.(table := room), key, ask, newRef, fetch, waiter);
    }
  }

  lemma OneMore(room: map<Key, Ref>, key: Key, ref: Ref)
    ensures |room[key := ref]| <= |room| + 1
  {
    assert room[key := ref].Keys == room.Keys + {key};
    assert |room[key := ref]| == |room[key := ref].Keys| && |room| == |room.Keys|;
  }

  lemma SettledEntry(s: State, fetch: Request, reply: Reply)
    requires Inv(s) && fetch in s.fetches && s.fetches[fetch].progress.Running?
    ensures s.fetches[fetch].ref in s.entries
    ensures EntrySound(Settled(s, fetch, Some(reply)), s.fetches[fetch].ref)
  {
    var f := s.fetches[fetch];
    assert FetchSound(s, fetch) && EntrySound(s, f.ref);
    RememberedBounded(s.entries[f.ref].cooldowns, reply, f.missingKid, s.clock);
  }

  lemma SettledKeeps(s: State, fetch: Request, outcome: Option<Reply>)
    requires Inv(s) && fetch in s.fetches && s.fetches[fetch].progress.Running?
    ensures Inv(Settled(s, fetch, outcome))
  {
    hide Settled, EntrySound, FetchSound;
    FetchIsBacked(s, fetch);
    SettledFrame(s, fetch, outcome);
    var n := Settled(s, fetch, outcome);
    forall r | r in n.entries ensures EntrySound(n, r) {
      if outcome.Some? && r == s.fetches[fetch].ref {
        SettledEntry(s, fetch, outcome.value);
      } else {
        SettledOther(s, fetch, outcome, r);
      }
    }
    forall g | g in n.fetches ensures FetchSound(n, g) {
      SettledFetch(s, fetch, outcome, g);
    }
  }

  lemma SettledOther(s: State, fetch: Request, outcome: Option<Reply>, r: Ref)
    requires Inv(s) && fetch in s.fetches && s.fetches[fetch].progress.Running? && r in s.entries
    requires s.fetches[fetch].ref in s.entries && (outcome.Some? ==> r != s.fetches[fetch].ref)
    ensures r in Settled(s, fetch, outcome).entries && EntrySound(Settled(s, fetch, outcome), r)
  {
    hide Remembered, FetchSound;
    assert EntrySound(s, r);
  }

  lemma SettledFrame(s: State, fetch: Request, outcome: Option<Reply>)
    requires fetch in s.fetches && s.fetches[fetch].ref in s.entries
    ensures var n := Settled(s, fetch, outcome);
            && n.table == s.table && n.waiting == s.waiting
            && n.entries.Keys == s.entries.Keys && n.fetches.Keys == s.fetches.Keys
            && (forall g :: g in s.fetches ==> n.fetches[g].ref == s.fetches[g].ref)
            && (forall r :: r in n.replies ==> r in s.replies || r.0 == s.fetches[fetch].ref)
  {
    hide Remembered;
  }

  lemma SettledFetch(s: State, fetch: Request, outcome: Option<Reply>, g: Request)
    requires Inv(s) && fetch in s.fetches && s.fetches[fetch].progress.Running? && g in s.fetches
    ensures s.fetches[fetch].ref in s.entries
    ensures FetchSound(Settled(s, fetch, outcome), g)
  {
    assert FetchSound(s, g) && FetchSound(s, fetch);
  }

  lemma ResumedKeeps(s: State, w: Waiting, shared: Reply, newFetch: Request)
    requires Inv(s) && w.ref in s.entries && newFetch !in s.fetches
    ensures Inv(Resumed(s, w, shared, newFetch))
  {
    var e := s.entries[w.ref];
    assert EntrySound(s, w.ref);
    if !w.ask.force {
    } else if w.kind.Rollover? {
      RememberedBounded(e.cooldowns, shared, w.ask.missingKid, s.clock);
      UpdateKeeps(s, w.ref, e.(cooldowns := Remembered(e.cooldowns, shared, w.ask.missingKid, s.clock)));
    } else if Moved(e, w.ask) {
      if e.value.Some? { RememberedBounded(e.cooldowns, e.value.value, w.ask.missingKid, s.clock); }
      UpdateKeeps(s, w.ref, e.(cooldowns := if e.value.Some? then Remembered(e.cooldowns, e.value.value, w.ask.missingKid, s.clock) else e.cooldowns));
    } else if CoolingDown(e, w.ask.missingKid, s.clock) {
    } else {
      StartedKeeps(s, w.ref, w.ask, newFetch);
    }
  }

  lemma NextKeeps(s: State, step: Step)
    requires Inv(s) && Enabled(s, step)
    ensures Inv(Next(s, step))
  {
    match step
    case Tick(to) =>
      var n := s.(clock := to);
      forall r | r in n.entries ensures EntrySound(n, r) { assert EntrySound(s, r); }
      forall f | f in n.fetches ensures FetchSound(n, f) { assert FetchSound(s, f); }
    case Call(key, ask, newRef, fetch, waiter) => CalledKeeps(s, key, ask, newRef, fetch, waiter);
    case Settle(fetch, outcome) => SettledKeeps(s, fetch, outcome);
    case Release(fetch) =>
      assert FetchSound(s, fetch) && EntrySound(s, s.fetches[fetch].ref);
      if s.entries[s.fetches[fetch].ref].inflight == Some(fetch) {
        UpdateKeeps(s, s.fetches[fetch].ref, s.entries[s.fetches[fetch].ref].(inflight := None));
      }
    case Resume(waiter, newFetch) =>
      var w := s.waiting[waiter];
      var s1 := s.(waiting := s.waiting - {waiter});
      WaitersKeep(s, s1.waiting);
      if s.fetches[w.fetch].progress.Succeeded? {
        ResumedKeeps(s1, w, s.fetches[w.fetch].progress.shared, newFetch);
      }
  }

  lemma WaitersKeep(s: State, waiting: map<Waiter, Waiting>)
    requires Inv(s) && forall w :: w in waiting ==> w in s.waiting && waiting[w] == s.waiting[w]
    ensures Inv(s.(waiting := waiting))
  {
    var n := s.(waiting := waiting);
    forall r | r in n.entries ensures EntrySound(n, r) { assert EntrySound(s, r); }
    forall f | f in n.fetches ensures FetchSound(n, f) { assert FetchSound(s, f); }
  }

  // ---------- runs ----------

  ghost predicate Initial(s: State) {
    s.table == map[] && s.entries == map[] && s.fetches == map[] && s.waiting == map[] && s.replies == map[]
  }

  /** The invariant is part of the definition only to make each step well defined; RunKeeps shows
      that it never restricts a run from an empty cache. */
  ghost predicate Runs(s: State, steps: seq<Step>)
    decreases |steps|
  {
    Inv(s) && (steps == [] || (Enabled(s, steps[0]) && Runs(Next(s, steps[0]), steps[1..])))
  }

  ghost function Final(s: State, steps: seq<Step>): State
    requires Runs(s, steps)
    decreases |steps|
  {
    if steps == [] then s else Final(Next(s, steps[0]), steps[1..])
  }

  /** Enabled steps can always be taken, and lead to another state of the invariant. */
  lemma RunExtends(s: State, step: Step)
    requires Runs(s, []) && Enabled(s, step)
    ensures Runs(s, [step]) && Final(s, [step]) == Next(s, step)
  {
    NextKeeps(s, step);
    assert [step][1..] == [];
  }

  lemma {:induction false} RunKeeps(s: State, steps: seq<Step>)
    requires Runs(s, steps)
    ensures Inv(Final(s, steps))
    decreases |steps|
  {
    if steps != [] {
      RunKeeps(Next(s, steps[0]), steps[1..]);
    }
  }

  lemma InitialInv(s: State)
    requires Initial(s)
    ensures Runs(s, [])
  {
  }

  ghost predicate NoOlder(s: State, n: State) {
    forall ref :: ref in s.entries ==> ref in n.entries && s.entries[ref].generation <= n.entries[ref].generation
  }

  /** What a call leaves alone: generations, marks, and the table entries that are marked. */
  ghost predicate CallLeaves(s: State, n: State) {
    && (forall r :: r in s.entries ==> r in n.entries && n.entries[r].generation == s.entries[r].generation)
    && (forall r :: r in s.entries && s.entries[r].inflight.Some? ==> n.entries[r].inflight == s.entries[r].inflight)
    && (forall k :: k in s.table && s.table[k] in s.entries && s.entries[s.table[k]].inflight.Some? ==> k in n.table && n.table[k] == s.table[k])
  }

  /** A call starts at most one fetch, for an entry without a mark, and marks the entry with it. */
  ghost predicate CallStarts(s: State, n: State, fetch: Request) {
    || n.fetches == s.fetches
    || (&& fetch in n.fetches && n.fetches == s.fetches[fetch := n.fetches[fetch]]
        && n.fetches[fetch].ref in n.entries && n.entries[n.fetches[fetch].ref].inflight == Some(fetch)
        && (n.fetches[fetch].ref in s.entries ==> s.entries[n.fetches[fetch].ref].inflight.None?))
  }

  lemma StartedTraits(s: State, ref: Ref, ask: Ask, fetch: Request)
    requires ref in s.entries && s.entries[ref].inflight.None?
    ensures var n := Started(s, ref, ask, fetch);
            n.table == s.table && CallLeaves(s, n) && CallStarts(s, n, fetch)
  {
  }

  lemma AnsweredTraits(s: State, ref: Ref, ask: Ask, fetch: Request, waiter: Waiter)
    requires ref in s.entries && fetch !in s.fetches
    ensures var n := Answered(s, ref, ask, fetch, waiter);
            n.table == s.table && CallLeaves(s, n) && CallStarts(s, n, fetch)
  {
    hide Remembered, CoolingDown, Started;
    if s.entries[ref].inflight.None? { StartedTraits(s, ref, ask, fetch); }
  }

  lemma PrunedTraits(table: map<Key, Ref>, entries: map<Ref, Entry>, now: Instant, target: nat)
    requires Backed(table, entries)
    ensures forall k :: k in Pruned(table, entries, now, target) ==> k in table && Pruned(table, entries, now, target)[k] == table[k]
    ensures forall k :: k in Pruned(table, entries, now, target) ==> k in Swept(table, entries, now)
    ensures forall k :: k in table && entries[table[k]].inflight.Some? ==> k in Pruned(table, entries, now, target)
  {
    hide EvictedDown;
  }

  lemma CallTraits(s: State, key: Key, ask: Ask, newRef: Ref, fetch: Request, waiter: Waiter)
    requires Backed(s.table, s.entries) && newRef !in s.entries && fetch !in s.fetches
    ensures CallLeaves(s, Called(s, key, ask, newRef, fetch, waiter))
    ensures CallStarts(s, Called(s, key, ask, newRef, fetch, waiter), fetch)
    ensures forall k :: k in Called(s, key, ask, newRef, fetch, waiter).table ==> k == key || k in Swept(s.table, s.entries, s.clock)
  {
    hide Pruned, Found, Added, Swept;
    var pruned := Pruned(s.table, s.entries, s.clock, MAX_ENTRIES);
    PrunedTraits(s.table, s.entries, s.clock, MAX_ENTRIES);
    PrunedTraits(pruned, s.entries, s.clock, MAX_ENTRIES - 1);
    if key in pruned {
      FoundTraits(s, pruned, key, ask, fetch, waiter);
    } else {
      var room := Pruned(pruned, s.entries, s.clock, MAX_ENTRIES - 1);
      if |room| < MAX_ENTRIES {
        AddedTraits(s, room, key, ask, newRef, fetch, waiter);
      }
    }
  }

  ghost predicate KeepsMarked(s: State, table: map<Key, Ref>) {
    forall k :: k in s.table && s.table[k] in s.entries && s.entries[s.table[k]].inflight.Some? ==> k in table && table[k] == s.table[k]
  }

  lemma FoundTraits(s: State, table: map<Key, Ref>, key: Key, ask: Ask, fetch: Request, waiter: Waiter)
    requires KeepsMarked(s, table) && key in table && table[key] in s.entries && fetch !in s.fetches
    ensures var n := Found(s.(table := table), table[key], ask, fetch, waiter);
            n.table == table && CallLeaves(s, n) && CallStarts(s, n, fetch)
  {
    hide Answered;
    AnsweredTraits(Touched(s.(table := table), table[key]), table[key], ask, fetch, waiter);
  }

  lemma AddedTraits(s: State, table: map<Key, Ref>, key: Key, ask: Ask, newRef: Ref, fetch: Request, waiter: Waiter)
    requires Backed(s.table, s.entries) && KeepsMarked(s, table) && key !in table && newRef !in s.entries && fetch !in s.fetches
    ensures var n := Added(s.(table := table), key, ask, newRef, fetch, waiter);
            n.table == table[key := newRef] && CallLeaves(s, n) && CallStarts(s, n, fetch)
  {
    hide Answered, CallLeaves, CallStarts;
    var e := Entered(s.(table := table), key, newRef);
    AnsweredTraits(e, newRef, ask, fetch, waiter);
    EnteredTraits(s, table, key, newRef, Answered(e, newRef, ask, fetch, waiter), fetch);
  }

  lemma EnteredTraits(s: State, table: map<Key, Ref>, key: Key, newRef: Ref, n: State, fetch: Request)
    requires Backed(s.table, s.entries) && KeepsMarked(s, table) && key !in table && newRef !in s.entries && fetch !in s.fetches
    requires var e := Entered(s.(table := table), key, newRef); n.table == e.table && CallLeaves(e, n) && CallStarts(e, n, fetch)
    ensures CallLeaves(s, n) && CallStarts(s, n, fetch)
  {
    EnteredLeaves(s, table, key, newRef, n);
    hide CallLeaves, KeepsMarked, Backed;
  }

  lemma EnteredLeaves(s: State, table: map<Key, Ref>, key: Key, newRef: Ref, n: State)
    requires Backed(s.table, s.entries) && KeepsMarked(s, table) && key !in table && newRef !in s.entries
    requires var e := Entered(s.(table := table), key, newRef); n.table == e.table && CallLeaves(e, n)
    ensures CallLeaves(s, n)
  {
    var e := Entered(s.(table := table), key, newRef);
    assert forall r :: r in s.entries ==> r in e.entries && e.entries[r] == s.entries[r];
  }

  lemma ResumedNoOlder(s: State, w: Waiting, shared: Reply, newFetch: Request)
    requires w.ref in s.entries
    ensures NoOlder(s, Resumed(s, w, shared, newFetch))
  {
    hide Remembered, CoolingDown;
  }

  lemma SettledNoOlder(s: State, fetch: Request, outcome: Option<Reply>)
    requires fetch in s.fetches && s.fetches[fetch].ref in s.entries
    ensures NoOlder(s, Settled(s, fetch, outcome))
  {
    hide Remembered;
  }

  lemma StepNoOlder(s: State, step: Step)
    requires Inv(s) && Enabled(s, step)
    ensures NoOlder(s, Next(s, step))
  {
    hide Inv, Called, Resumed, Settled;
    match step
    case Call(key, ask, newRef, fetch, waiter) =>
      InvBacked(s);
      CallTraits(s, key, ask, newRef, fetch, waiter);
    case Settle(fetch, outcome) =>
      FetchIsBacked(s, fetch);
      SettledNoOlder(s, fetch, outcome);
    case Resume(waiter, newFetch) =>
      var w := s.waiting[waiter];
      WaiterIsBacked(s, waiter);
      if s.fetches[w.fetch].progress.Succeeded? {
        ResumedNoOlder(s.(waiting := s.waiting - {waiter}), w, s.fetches[w.fetch].progress.shared, newFetch);
      }
    case Release(fetch) => FetchIsBacked(s, fetch);
    case _ =>
  }

  lemma FetchIsBacked(s: State, fetch: Request)
    requires Inv(s) && fetch in s.fetches
    ensures s.fetches[fetch].ref in s.entries
  {
    assert FetchSound(s, fetch);
  }

  lemma WaiterIsBacked(s: State, waiter: Waiter)
    requires Inv(s) && waiter in s.waiting
    ensures s.waiting[waiter].ref in s.entries && s.waiting[waiter].fetch in s.fetches
  {
  }

  /** The generation of an entry never decreases, whatever order fetches end in. */
  lemma {:induction false} GenerationsNeverDecrease(s: State, steps: seq<Step>)
    requires Runs(s, steps)
    ensures NoOlder(s, Final(s, steps))
    decreases |steps|
  {
    if steps != [] {
      StepNoOlder(s, steps[0]);
      GenerationsNeverDecrease(Next(s, steps[0]), steps[1..]);
    }
  }

  /** In every run from an empty cache: an entry serves the reply of the highest generation that
      completed, its generation stays below the next one, and the cache stays within its bound. */
  lemma NewestReplyIsServed(s: State, steps: seq<Step>, ref: Ref)
    requires Initial(s) && Runs(s, steps) && ref in Final(s, steps).entries
    ensures ValueIsNewest(Final(s, steps), ref)
    ensures Final(s, steps).entries[ref].generation < Final(s, steps).entries[ref].nextGeneration
    ensures |Final(s, steps).table| <= MAX_ENTRIES
  {
    RunKeeps(s, steps);
    assert EntrySound(Final(s, steps), ref);
  }
}
