/** The order in which the promise queue lets callers of the Microsoft caches go on
    (src/auth-runtime.ts).  The caller that started a fetch awaits it first, and those that join it
    wait behind it.  When the fetch ends their continuations are queued together: its cleanup runs
    first, then everybody who had joined goes on in the order of joining, and nothing else runs in
    between.  Whoever joins between the end of a fetch and its cleanup is queued behind them. */
module OidcQueue {

  import opened OidcCache
  import opened OidcStamps

  /** The cache, the fetches that have been cleaned up, and the waiting callers that joined a fetch
      before it ended. */
  datatype Queue = Queue(cache: State, released: set<Request>, early: set<Waiter>)

  /** The caller joined a fetch before it ended, and the fetch has been cleaned up. */
  predicate InTurn(q: Queue, w: Waiter) {
    w in q.cache.waiting && w in q.early && q.cache.waiting[w].fetch in q.released
  }

  /** Callers that joined in time are going on one after the other. */
  ghost predicate Draining(q: Queue) {
    exists w :: InTurn(q, w)
  }

  /** Nobody joined the same fetch earlier and still waits. */
  predicate First(q: Queue, w: Waiter) {
    w in q.cache.waiting && forall v :: v in q.cache.waiting && q.cache.waiting[v].fetch == q.cache.waiting[w].fetch ==> w <= v
  }

  /** Waiting callers are numbered in the order of their calls. */
  ghost predicate Orderly(q: Queue, step: Step) {
    && Enabled(q.cache, step)
    && match step
       case Tick(_) => true
       case Call(_, _, _, _, waiter) => !Draining(q) && forall v :: v in q.cache.waiting ==> v < waiter
       case Settle(_, _) => !Draining(q)
       case Release(fetch) => !Draining(q) && fetch !in q.released
       case Resume(waiter, _) => q.cache.waiting[waiter].fetch in q.released && First(q, waiter) && (Draining(q) ==> waiter in q.early)
  }

  predicate JoinedInTime(n: State, waiter: Waiter) {
    waiter in n.waiting && n.waiting[waiter].fetch in n.fetches && n.fetches[n.waiting[waiter].fetch].progress.Running?
  }

  ghost function After(q: Queue, step: Step): Queue
    requires Inv(q.cache) && Orderly(q, step)
  {
    var n := Next(q.cache, step);
    match step
    case Call(_, _, _, _, waiter) => Queue(n, q.released, if JoinedInTime(n, waiter) then q.early + {waiter} else q.early)
    case Release(fetch) => Queue(n, q.released + {fetch}, q.early)
    case Resume(waiter, _) => Queue(n, q.released, q.early - {waiter})
    case _ => q.(cache := n)
  }

  // ---------- blind callers ----------

  /** The caller has not seen a generation, or the one that the load brings. */
  predicate Unseeing(ask: Ask, fetch: Fetch) {
    ask.observed.None? || ask.observed.value == fetch.generation
  }

  /** The caller waits for a load that may still answer it, and will not notice it by its generation. */
  predicate Blind(s: State, w: Waiter) {
    && w in s.waiting && s.waiting[w].ask.force && s.waiting[w].kind.Load?
    && s.waiting[w].fetch in s.fetches && !s.fetches[s.waiting[w].fetch].progress.Failed?
    && Unseeing(s.waiting[w].ask, s.fetches[s.waiting[w].fetch])
  }

  /** The call joins no load that has succeeded, and at most one blind caller joins a load. */
  ghost predicate Admitted(q: Queue, step: Step)
    requires Inv(q.cache)
  {
    var s := q.cache;
    step.Call? && JoinsLoad(s, step.key, step.ask) ==>
      && Marked(s, step.key) in s.fetches
      && var f := s.fetches[Marked(s, step.key)];
         || f.progress.Failed?
         || (f.progress.Running? && (Unseeing(step.ask, f) ==>
               forall w :: w in s.waiting && s.waiting[w].fetch == Marked(s, step.key) ==> !Blind(s, w)))
  }

  // ---------- the invariant ----------

  ghost predicate WaiterInOrder(q: Queue, w: Waiter)
    requires w in q.cache.waiting
  {
    var s := q.cache;
    var x := s.waiting[w];
    && x.fetch in s.fetches && x.ref in s.entries && s.fetches[x.fetch].ref == x.ref && s.fetches[x.fetch].kind == x.kind
    && var f, e := s.fetches[x.fetch], s.entries[x.ref];
       && (f.progress.Running? ==> w in q.early)
       && (w !in q.early && f.progress.Succeeded? ==> !(x.ask.force && x.kind.Load?))
       && (w in q.early && !f.progress.Running? && x.fetch !in q.released ==> e.inflight == Some(x.fetch))
       && (w in q.early && f.progress.Succeeded? ==> e.generation == f.generation)
       && (w in q.early && x.fetch in q.released && Blind(s, w) ==> e.inflight.None?)
  }

  /** What has been cleaned up has ended, and marks nothing. */
  ghost predicate Cleaned(q: Queue) {
    && (forall f :: f in q.released ==> f in q.cache.fetches && !q.cache.fetches[f].progress.Running?)
    && (forall r :: r in q.cache.entries && q.cache.entries[r].inflight.Some? ==> q.cache.entries[r].inflight.value !in q.released)
  }

  ghost predicate OneInTurn(q: Queue) {
    forall v, w :: InTurn(q, v) && InTurn(q, w) ==> q.cache.waiting[v].fetch == q.cache.waiting[w].fetch
  }

  ghost predicate OneBlind(s: State) {
    forall v, w :: Blind(s, v) && Blind(s, w) && s.waiting[v].fetch == s.waiting[w].fetch ==> v == w
  }

  /** Whoever joined before the end of a fetch is ahead of those who joined after it. */
  ghost predicate EarlyFirst(q: Queue) {
    forall v, w ::
      v in q.early && v in q.cache.waiting && w in q.cache.waiting && w !in q.early && q.cache.waiting[v].fetch == q.cache.waiting[w].fetch ==>
        v < w
  }

  ghost predicate InOrder(q: Queue) {
    && Inv(q.cache) && Stamped(q.cache) && SingleFlight(q.cache)
    && q.early <= q.cache.waiting.Keys && Cleaned(q) && OneInTurn(q) && OneBlind(q.cache) && EarlyFirst(q)
    && forall w :: w in q.cache.waiting ==> WaiterInOrder(q, w)
  }

  lemma InitialInOrder(s: State)
    requires Initial(s)
    ensures InOrder(Queue(s, {}, {}))
  {
  }

  // ---------- every admitted step keeps it ----------

  lemma NotInTurn(q: Queue, w: Waiter)
    requires !Draining(q) && w in q.cache.waiting && w in q.early
    ensures q.cache.waiting[w].fetch !in q.released
  {
    assert !InTurn(q, w);
  }

  predicate FetchesStay(s: State, n: State) {
    forall f :: f in s.fetches ==> f in n.fetches && n.fetches[f] == s.fetches[f]
  }

  lemma StartsAreNew(s: State, n: State, fetch: Request)
    requires CallStarts(s, n, fetch) && fetch !in s.fetches
    ensures FetchesStay(s, n)
  {
  }

  /** A mark that a call sets is new. */
  lemma CallCleaned(q: Queue, m: Queue, fetch: Request)
    requires Cleaned(q) && CallMarks(q.cache, m.cache, fetch) && FetchesStay(q.cache, m.cache) && fetch !in q.cache.fetches && m.released == q.released
    ensures Cleaned(m)
  {
  }

  lemma StillNoneInTurn(q: Queue, m: Queue)
    requires !Draining(q) && m.released == q.released
    requires forall w :: w in m.cache.waiting && w in m.early && m.cache.waiting[w].fetch in m.released ==> w in q.early && w in q.cache.waiting && q.cache.waiting[w] == m.cache.waiting[w]
    ensures !Draining(m) && OneInTurn(m)
  {
    forall v ensures !InTurn(m, v) { assert !InTurn(q, v); }
  }

  lemma OldWaiterStays(q: Queue, m: Queue, w: Waiter)
    requires w in q.cache.waiting && WaiterInOrder(q, w) && !Draining(q)
    requires m.released == q.released && (w in m.early <==> w in q.early) && w in m.cache.waiting && m.cache.waiting[w] == q.cache.waiting[w]
    requires CallLeaves(q.cache, m.cache) && FetchesStay(q.cache, m.cache)
    ensures WaiterInOrder(m, w) && Blind(m.cache, w) == Blind(q.cache, w)
  {
    if w in q.early { NotInTurn(q, w); }
  }

  /** What a call that waits joins. */
  ghost predicate Joined(q: Queue, m: Queue, step: Step)
    requires Inv(q.cache) && step.Call?
  {
    var s, n := q.cache, m.cache;
    && CallJoins(s, n, step.key, step.ask, step.waiter) && FetchesStay(s, n) && CallLeaves(s, n)
    && m.released == q.released && m.early == if JoinedInTime(n, step.waiter) then q.early + {step.waiter} else q.early
  }

  lemma CallEarlyFirst(q: Queue, m: Queue, step: Step)
    requires InOrder(q) && step.Call? && Orderly(q, step) && Joined(q, m, step)
    ensures EarlyFirst(m)
  {
    var s, n := q.cache, m.cache;
    forall v, w | v in m.early && v in n.waiting && w in n.waiting && w !in m.early && n.waiting[v].fetch == n.waiting[w].fetch ensures v < w {
      if w in s.waiting { assert WaiterInOrder(q, w); }
    }
    hide Inv, Stamped, SingleFlight;
  }

  lemma NewWaiterInOrder(q: Queue, m: Queue, step: Step)
    requires InOrder(q) && step.Call? && Orderly(q, step) && Admitted(q, step) && Joined(q, m, step) && m.cache.waiting != q.cache.waiting
    ensures step.waiter in m.cache.waiting && WaiterInOrder(m, step.waiter) && !InTurn(m, step.waiter)
    ensures forall v :: v in q.cache.waiting && Blind(q.cache, v) && Blind(m.cache, step.waiter) ==> q.cache.waiting[v].fetch != m.cache.waiting[step.waiter].fetch
  {
    MarkedIsFetch(q.cache, step.key);
    InvBacked(q.cache);
    assert MarkIsLast(q.cache, q.cache.table[step.key]);
    hide Inv, Stamped, SingleFlight, JoinsLoad;
  }

  lemma CallOneBlind(q: Queue, m: Queue, step: Step)
    requires InOrder(q) && step.Call? && Orderly(q, step) && Joined(q, m, step)
    requires forall w :: w in q.cache.waiting ==> Blind(m.cache, w) == Blind(q.cache, w)
    requires m.cache.waiting != q.cache.waiting ==>
               forall v :: v in q.cache.waiting && Blind(q.cache, v) && Blind(m.cache, step.waiter) ==> q.cache.waiting[v].fetch != m.cache.waiting[step.waiter].fetch
    ensures OneBlind(m.cache)
  {
    var s, n := q.cache, m.cache;
    assert OneBlind(s);
    hide Inv, Stamped, SingleFlight, JoinsLoad, Blind, Cleaned, OneInTurn, WaiterInOrder, CallLeaves, FetchesStay;
    forall v, w | Blind(n, v) && Blind(n, w) && n.waiting[v].fetch == n.waiting[w].fetch ensures v == w {
      BlindWaits(n, v);
      BlindWaits(n, w);
    }
  }

  lemma BlindWaits(s: State, w: Waiter)
    requires Blind(s, w)
    ensures w in s.waiting
  {
  }

  lemma CallWaiters(q: Queue, m: Queue, step: Step)
    requires InOrder(q) && step.Call? && Orderly(q, step) && Admitted(q, step) && Joined(q, m, step)
    ensures forall w :: w in m.cache.waiting ==> WaiterInOrder(m, w)
    ensures OneBlind(m.cache) && OneInTurn(m) && EarlyFirst(m) && m.early <= m.cache.waiting.Keys
  {
    hide Inv, Stamped, SingleFlight, Next, JoinsLoad, Blind, Cleaned, OneInTurn, OneBlind, EarlyFirst, WaiterInOrder, Admitted, Draining, InTurn, Unseeing, CallLeaves, FetchesStay, Enabled;
    var s, n := q.cache, m.cache;
    CallEarlyFirst(q, m, step);
    if n.waiting != s.waiting { NewWaiterInOrder(q, m, step); }
    forall w | w in s.waiting ensures WaiterInOrder(m, w) && Blind(n, w) == Blind(s, w) { OldWaiterStays(q, m, w); }
    CallOneBlind(q, m, step);
    CallNoneInTurn(q, m, step);
  }

  lemma CallNoneInTurn(q: Queue, m: Queue, step: Step)
    requires Inv(q.cache) && step.Call? && Orderly(q, step) && Joined(q, m, step) && q.early <= q.cache.waiting.Keys
    requires m.cache.waiting != q.cache.waiting ==> !InTurn(m, step.waiter)
    ensures OneInTurn(m) && m.early <= m.cache.waiting.Keys
  {
    hide Inv, JoinsLoad, CallLeaves, FetchesStay;
    forall v ensures !InTurn(m, v) { assert !InTurn(q, v); }
  }

  /** What any call keeps, admitted or not. */
  lemma CallKeepsRest(q: Queue, step: Step)
    requires InOrder(q) && step.Call? && Orderly(q, step)
    ensures var m := After(q, step);
            Joined(q, m, step) && Inv(m.cache) && Stamped(m.cache) && SingleFlight(m.cache) && Cleaned(m) && EarlyFirst(m)
  {
    hide Inv, Stamped, SingleFlight, Called, CallStarts, CallMarks, CallLeaves, CallJoins, FetchesStay, WaiterInOrder, JoinsLoad, Cleaned, OneInTurn, OneBlind,
         EarlyFirst, After, JoinedInTime, Draining;
    var s, m := q.cache, After(q, step);
    StepAfter(q, step);
    StampedKeeps(s, step);
    CallIsCalled(q, step);
    CallTraits(s, step.key, step.ask, step.newRef, step.fetch, step.waiter);
    CallWaits(s, step.key, step.ask, step.newRef, step.fetch, step.waiter);
    CallMarksOwn(s, step.key, step.ask, step.newRef, step.fetch, step.waiter);
    CallKeepsSingleFlight(s, m.cache, step.fetch);
    StartsAreNew(s, m.cache, step.fetch);
    CallCleaned(q, m, step.fetch);
    CallEarlyFirst(q, m, step);
  }

  lemma CallIsCalled(q: Queue, step: Step)
    requires Inv(q.cache) && step.Call? && Orderly(q, step)
    ensures Backed(q.cache.table, q.cache.entries)
    ensures After(q, step).cache == Called(q.cache, step.key, step.ask, step.newRef, step.fetch, step.waiter)
  {
    InvBacked(q.cache);
    hide Called, Draining;
  }

  lemma CallInOrder(q: Queue, step: Step)
    requires InOrder(q) && step.Call? && Orderly(q, step) && Admitted(q, step)
    ensures InOrder(After(q, step))
  {
    CallKeepsRest(q, step);
    hide Inv, Stamped, SingleFlight, WaiterInOrder, Admitted, Cleaned, OneInTurn, OneBlind, EarlyFirst, Joined, After, Orderly;
    CallWaiters(q, After(q, step), step);
  }

  lemma StepAfter(q: Queue, step: Step)
    requires Inv(q.cache) && Orderly(q, step)
    ensures Enabled(q.cache, step) && After(q, step).cache == Next(q.cache, step) && Inv(Next(q.cache, step))
    ensures step.Call? ==> After(q, step).early == if JoinedInTime(Next(q.cache, step), step.waiter) then q.early + {step.waiter} else q.early
    ensures step.Resume? ==> step.waiter in q.cache.waiting && After(q, step).early == q.early - {step.waiter}
    ensures After(q, step).released == if step.Release? then q.released + {step.fetch} else q.released
  {
    NextKeeps(q.cache, step);
    hide Inv, Next;
  }

  // ---------- the end of a fetch ----------

  /** A fetch that ends is the one its entry is marked with, and brings its generation if it succeeds. */
  ghost predicate Ends(s: State, n: State, fetch: Request) {
    && fetch in s.fetches && fetch in n.fetches && !n.fetches[fetch].progress.Running?
    && n.fetches == s.fetches[fetch := s.fetches[fetch].(progress := n.fetches[fetch].progress)]
    && n.waiting == s.waiting && n.entries.Keys == s.entries.Keys && n.table == s.table && n.clock == s.clock
    && var ref := s.fetches[fetch].ref;
       && ref in s.entries && s.entries[ref].inflight == Some(fetch) && n.entries[ref].inflight == Some(fetch)
       && (n.fetches[fetch].progress.Succeeded? ==> n.entries[ref].generation == s.fetches[fetch].generation)
       && (forall r :: r in s.entries && r != ref ==> n.entries[r] == s.entries[r])
  }

  lemma SettledEnds(s: State, fetch: Request, outcome: Option<Reply>)
    requires fetch in s.fetches && s.fetches[fetch].ref in s.entries
    requires s.entries[s.fetches[fetch].ref].inflight == Some(fetch) && s.entries[s.fetches[fetch].ref].generation <= s.fetches[fetch].generation
    ensures Ends(s, Settled(s, fetch, outcome), fetch)
  {
    hide Remembered;
  }

  lemma MarkedIsNewest(s: State, fetch: Request)
    requires Inv(s) && Stamped(s) && SingleFlight(s) && fetch in s.fetches && s.fetches[fetch].progress.Running?
    ensures var ref := s.fetches[fetch].ref;
            ref in s.entries && s.entries[ref].inflight == Some(fetch) && s.entries[ref].generation <= s.fetches[fetch].generation
  {
    var ref := s.fetches[fetch].ref;
    assert EntrySound(s, ref) && MarkIsLast(s, ref);
  }

  lemma SettledWaiter(q: Queue, m: Queue, fetch: Request, w: Waiter)
    requires !Draining(q) && w in q.cache.waiting && WaiterInOrder(q, w) && Ends(q.cache, m.cache, fetch)
    requires q.cache.fetches[fetch].progress.Running? && m.early == q.early && m.released == q.released && fetch !in q.released
    ensures WaiterInOrder(m, w) && (Blind(m.cache, w) ==> Blind(q.cache, w))
  {
    if w in q.early { NotInTurn(q, w); }
  }

  lemma SettledCleaned(q: Queue, m: Queue, fetch: Request)
    requires Cleaned(q) && Ends(q.cache, m.cache, fetch) && m.released == q.released
    ensures Cleaned(m)
  {
  }

  lemma SettleInOrder(q: Queue, step: Step)
    requires InOrder(q) && step.Settle? && Orderly(q, step)
    ensures InOrder(After(q, step))
  {
    var s, m := q.cache, After(q, step);
    NextKeeps(s, step);
    StampedKeeps(s, step);
    SettleKeepsSingleFlight(s, step);
    MarkedIsNewest(s, step.fetch);
    SettledEnds(s, step.fetch, step.outcome);
    assert step.fetch !in q.released;
    hide Inv, Stamped, SingleFlight, Settled, WaiterInOrder, Blind, Cleaned, OneInTurn, OneBlind, Draining;
    SettledCleaned(q, m, step.fetch);
    SettledWaiters(q, m, step.fetch);
  }

  lemma SettledWaiters(q: Queue, m: Queue, fetch: Request)
    requires !Draining(q) && OneBlind(q.cache) && q.early <= q.cache.waiting.Keys && forall w :: w in q.cache.waiting ==> WaiterInOrder(q, w)
    requires Ends(q.cache, m.cache, fetch) && q.cache.fetches[fetch].progress.Running? && m.early == q.early && m.released == q.released && fetch !in q.released
    ensures OneInTurn(m) && OneBlind(m.cache) && m.early <= m.cache.waiting.Keys && forall w :: w in m.cache.waiting ==> WaiterInOrder(m, w)
  {
    hide WaiterInOrder, Blind, OneBlind, OneInTurn, Draining;
    forall w | w in q.cache.waiting ensures WaiterInOrder(m, w) && (Blind(m.cache, w) ==> Blind(q.cache, w)) { SettledWaiter(q, m, fetch, w); }
    StillNoneInTurn(q, m);
    forall w | Blind(m.cache, w) ensures w in m.cache.waiting { BlindWaits(m.cache, w); }
    FewerBlind(q.cache, m.cache);
  }

  lemma FewerBlind(s: State, n: State)
    requires OneBlind(s)
    requires forall w :: Blind(n, w) ==> Blind(s, w) && w in n.waiting && w in s.waiting && n.waiting[w] == s.waiting[w]
    ensures OneBlind(n)
  {
    hide Blind;
  }

  // ---------- the cleanup behind it ----------

  /** What a cleanup does. */
  ghost predicate Frees(q: Queue, m: Queue, f: Request) {
    var s, n := q.cache, m.cache;
    && f in s.fetches && !s.fetches[f].progress.Running? && f !in q.released && m.released == q.released + {f}
    && n.fetches == s.fetches && n.table == s.table && n.clock == s.clock && n.waiting == s.waiting && n.entries.Keys == s.entries.Keys
    && forall r :: r in s.entries ==>
         n.entries[r] == if s.fetches[f].ref == r && s.entries[r].inflight == Some(f) then s.entries[r].(inflight := None) else s.entries[r]
  }

  lemma ReleaseFrees(q: Queue, step: Step)
    requires Inv(q.cache) && step.Release? && Orderly(q, step)
    ensures Frees(q, After(q, step), step.fetch) && After(q, step).early == q.early
  {
    FetchIsBacked(q.cache, step.fetch);
    hide Inv, Draining;
  }

  lemma MarksMatch(s: State)
    requires Inv(s)
    ensures forall r :: r in s.entries && s.entries[r].inflight.Some? ==>
              s.entries[r].inflight.value in s.fetches && s.fetches[s.entries[r].inflight.value].ref == r
  {
    forall r | r in s.entries && s.entries[r].inflight.Some?
      ensures s.entries[r].inflight.value in s.fetches && s.fetches[s.entries[r].inflight.value].ref == r
    {
      assert EntrySound(s, r);
    }
  }

  lemma FreesCleans(q: Queue, m: Queue, f: Request)
    requires Frees(q, m, f) && Cleaned(q) && SingleFlight(q.cache)
    requires forall r :: r in q.cache.entries && q.cache.entries[r].inflight == Some(f) ==> q.cache.fetches[f].ref == r
    ensures Cleaned(m) && SingleFlight(m.cache)
  {
  }

  lemma ReleaseCleans(q: Queue, step: Step)
    requires Inv(q.cache) && SingleFlight(q.cache) && Cleaned(q) && step.Release? && Orderly(q, step)
    ensures Cleaned(After(q, step)) && SingleFlight(After(q, step).cache)
  {
    hide Inv, SingleFlight, Cleaned, Orderly, After, Frees;
    MarksMatch(q.cache);
    ReleaseFrees(q, step);
    FreesCleans(q, After(q, step), step.fetch);
  }

  lemma FreedWaiter(q: Queue, m: Queue, f: Request, w: Waiter)
    requires Frees(q, m, f) && m.early == q.early && !Draining(q) && w in q.cache.waiting && WaiterInOrder(q, w)
    ensures WaiterInOrder(m, w) && Blind(m.cache, w) == Blind(q.cache, w) && (InTurn(m, w) ==> q.cache.waiting[w].fetch == f)
  {
    if w in q.early { NotInTurn(q, w); }
  }

  lemma FreedWaiters(q: Queue, m: Queue, f: Request)
    requires Frees(q, m, f) && m.early == q.early && !Draining(q) && m.cache.waiting == q.cache.waiting
    requires OneBlind(q.cache) && EarlyFirst(q) && forall w :: w in q.cache.waiting ==> WaiterInOrder(q, w)
    ensures OneBlind(m.cache) && OneInTurn(m) && EarlyFirst(m) && forall w :: w in m.cache.waiting ==> WaiterInOrder(m, w)
  {
    hide Frees, WaiterInOrder, Blind, InTurn, Draining;
    forall w | w in q.cache.waiting ensures WaiterInOrder(m, w) && Blind(m.cache, w) == Blind(q.cache, w) && (InTurn(m, w) ==> q.cache.waiting[w].fetch == f) {
      FreedWaiter(q, m, f, w);
    }
    forall w | Blind(m.cache, w) ensures w in m.cache.waiting { BlindWaits(m.cache, w); }
    forall w | InTurn(m, w) ensures w in m.cache.waiting { InTurnWaits(m, w); }
    FewerBlind(q.cache, m.cache);
  }

  lemma FreesWaiting(q: Queue, m: Queue, f: Request)
    requires Frees(q, m, f)
    ensures m.cache.waiting == q.cache.waiting && m.cache.fetches == q.cache.fetches
  {
  }

  lemma ReleaseInOrder(q: Queue, step: Step)
    requires InOrder(q) && step.Release? && Orderly(q, step)
    ensures InOrder(After(q, step))
  {
    hide Inv, Stamped, SingleFlight, Next, WaiterInOrder, Blind, Cleaned, OneInTurn, OneBlind, EarlyFirst, After, Frees, Enabled;
    StepAfter(q, step);
    StampedKeeps(q.cache, step);
    ReleaseCleans(q, step);
    ReleaseFrees(q, step);
    FreesWaiting(q, After(q, step), step.fetch);
    FreedWaiters(q, After(q, step), step.fetch);
  }

  // ---------- a caller goes on ----------

  /** A caller that goes on starts a fetch of its own only if it joined in time, blindly, and nothing
      of its entry is under way. */
  lemma OwnStartIsAlone(q: Queue, step: Step)
    requires InOrder(q) && step.Resume? && Orderly(q, step) && StartsNow(q.cache, step.waiter)
    ensures InTurn(q, step.waiter) && Blind(q.cache, step.waiter) && q.cache.entries[q.cache.waiting[step.waiter].ref].inflight.None?
  {
    assert WaiterInOrder(q, step.waiter);
    hide Inv, Stamped, SingleFlight, Cleaned, OneInTurn, OneBlind, EarlyFirst, CoolingDown, Draining;
  }

  /** What a caller that goes on leaves alone. */
  ghost predicate GoesOn(s: State, n: State, w: Waiter) {
    && w in s.waiting && s.waiting[w].ref in s.entries
    && n.waiting == s.waiting - {w} && n.table == s.table && n.clock == s.clock && n.entries.Keys == s.entries.Keys
    && var ref := s.waiting[w].ref;
       && (forall r :: r in s.entries && r != ref ==> n.entries[r] == s.entries[r])
       && n.entries[ref].generation == s.entries[ref].generation && n.entries[ref].value == s.entries[ref].value
       && n.entries[ref].expiresAt == s.entries[ref].expiresAt
  }

  /** It starts nothing, and at most touches the cooldowns. */
  ghost predicate GoesOnQuietly(s: State, n: State, w: Waiter) {
    && GoesOn(s, n, w) && n.fetches == s.fetches
    && var x := s.waiting[w]; var e := s.entries[x.ref];
       && x.fetch in s.fetches
       && n.entries[x.ref] == (if s.fetches[x.fetch].progress.Succeeded?
                               then e.(cooldowns := SharedCooldowns(e, x, s.fetches[x.fetch].progress.shared, s.clock)) else e)
  }

  /** It starts a fetch of its own. */
  ghost predicate GoesOnStarting(s: State, n: State, w: Waiter, newFetch: Request) {
    && GoesOn(s, n, w) && newFetch !in s.fetches
    && var x := s.waiting[w]; var e := s.entries[x.ref];
       && n.fetches == s.fetches[newFetch := Fetch(x.ref, e.nextGeneration, Rollover, x.ask.missingKid, Running)]
       && n.entries[x.ref] == e.(nextGeneration := e.nextGeneration + 1, inflight := Some(newFetch), kind := Rollover)
  }

  predicate StartsNow(s: State, w: Waiter) {
    && w in s.waiting && s.waiting[w].ref in s.entries && s.waiting[w].fetch in s.fetches
    && s.fetches[s.waiting[w].fetch].progress.Succeeded? && StartsOwn(s.entries[s.waiting[w].ref], s.waiting[w], s.clock)
  }

  lemma ResumeEffect(s: State, step: Step)
    requires Inv(s) && step.Resume? && Enabled(s, step)
    ensures var n := Next(s, step);
            if StartsNow(s, step.waiter) then GoesOnStarting(s, n, step.waiter, step.newFetch) else GoesOnQuietly(s, n, step.waiter)
  {
    WaiterIsBacked(s, step.waiter);
    hide Inv, Resumed, StartsOwn, SharedCooldowns, GoesOnStarting, GoesOnQuietly, Started, Update;
    var w := s.waiting[step.waiter];
    var gone := s.(waiting := s.waiting - {step.waiter});
    if s.fetches[w.fetch].progress.Succeeded? {
      ResumedIs(gone, w, s.fetches[w.fetch].progress.shared, step.newFetch);
      if StartsNow(s, step.waiter) {
        ForcedStarts(s.entries[w.ref], w, s.clock);
        StartedGoesOn(s, step.waiter, step.newFetch);
      } else {
        UpdatedGoesOn(s, step.waiter);
      }
    } else {
      GoneGoesOn(s, step.waiter);
    }
  }

  lemma StartedGoesOn(s: State, waiter: Waiter, newFetch: Request)
    requires waiter in s.waiting && s.waiting[waiter].ref in s.entries && s.waiting[waiter].ask.force && newFetch !in s.fetches
    ensures GoesOnStarting(s, Started(s.(waiting := s.waiting - {waiter}), s.waiting[waiter].ref, s.waiting[waiter].ask, newFetch), waiter, newFetch)
  {
  }

  lemma UpdatedGoesOn(s: State, waiter: Waiter)
    requires waiter in s.waiting && s.waiting[waiter].ref in s.entries && s.waiting[waiter].fetch in s.fetches
    requires s.fetches[s.waiting[waiter].fetch].progress.Succeeded?
    ensures var w := s.waiting[waiter]; var e := s.entries[w.ref];
            GoesOnQuietly(s, Update(s.(waiting := s.waiting - {waiter}), w.ref,
                                    e.(cooldowns := SharedCooldowns(e, w, s.fetches[w.fetch].progress.shared, s.clock))), waiter)
  {
    hide SharedCooldowns;
  }

  lemma GoneGoesOn(s: State, waiter: Waiter)
    requires waiter in s.waiting && s.waiting[waiter].ref in s.entries && s.waiting[waiter].fetch in s.fetches
    requires !s.fetches[s.waiting[waiter].fetch].progress.Succeeded?
    ensures GoesOnQuietly(s, s.(waiting := s.waiting - {waiter}), waiter)
  {
  }

  lemma ForcedStarts(e: Entry, w: Waiting, now: Instant)
    requires StartsOwn(e, w, now)
    ensures w.ask.force && w.kind.Load?
  {
  }

  lemma QuietWaiter(q: Queue, m: Queue, waiter: Waiter, w: Waiter)
    requires w in q.cache.waiting && w != waiter && WaiterInOrder(q, w) && GoesOnQuietly(q.cache, m.cache, waiter)
    requires m.released == q.released && m.early == q.early - {waiter}
    ensures WaiterInOrder(m, w) && Blind(m.cache, w) == Blind(q.cache, w) && InTurn(m, w) == InTurn(q, w)
  {
    hide SharedCooldowns;
  }

  lemma OthersSeeing(q: Queue, waiter: Waiter, w: Waiter)
    requires OneInTurn(q) && OneBlind(q.cache) && InTurn(q, waiter) && Blind(q.cache, waiter) && w != waiter
    ensures !(InTurn(q, w) && Blind(q.cache, w))
  {
    hide Blind;
  }

  lemma StartingWaiter(q: Queue, m: Queue, waiter: Waiter, newFetch: Request, w: Waiter)
    requires w in q.cache.waiting && w != waiter && WaiterInOrder(q, w) && GoesOnStarting(q.cache, m.cache, waiter, newFetch)
    requires q.cache.entries[q.cache.waiting[waiter].ref].inflight.None? && !(InTurn(q, w) && Blind(q.cache, w))
    requires m.released == q.released && m.early == q.early - {waiter}
    ensures WaiterInOrder(m, w) && Blind(m.cache, w) == Blind(q.cache, w) && InTurn(m, w) == InTurn(q, w)
  {
  }

  /** What is true of every waiting caller that stays. */
  ghost predicate OthersStay(q: Queue, m: Queue, waiter: Waiter) {
    && m.cache.waiting == q.cache.waiting - {waiter} && m.early == q.early - {waiter}
    && forall w :: w in m.cache.waiting ==> WaiterInOrder(m, w) && Blind(m.cache, w) == Blind(q.cache, w) && InTurn(m, w) == InTurn(q, w)
  }

  lemma FewerInOrder(q: Queue, m: Queue, waiter: Waiter)
    requires OneInTurn(q) && OneBlind(q.cache) && q.early <= q.cache.waiting.Keys && OthersStay(q, m, waiter)
    ensures OneInTurn(m) && OneBlind(m.cache) && m.early <= m.cache.waiting.Keys
  {
    hide Blind, WaiterInOrder, InTurn;
    forall w | Blind(m.cache, w) ensures w in m.cache.waiting { BlindWaits(m.cache, w); }
    forall w | InTurn(m, w) ensures w in m.cache.waiting { InTurnWaits(m, w); }
    FewerBlind(q.cache, m.cache);
  }

  lemma FewerEarlyFirst(q: Queue, m: Queue)
    requires EarlyFirst(q)
    requires forall w :: w in m.cache.waiting ==> w in q.cache.waiting && m.cache.waiting[w] == q.cache.waiting[w] && (w in m.early <==> w in q.early)
    ensures EarlyFirst(m)
  {
  }

  lemma InTurnWaits(q: Queue, w: Waiter)
    requires InTurn(q, w)
    ensures w in q.cache.waiting
  {
  }

  lemma ResumeCleaned(q: Queue, m: Queue, waiter: Waiter, newFetch: Request)
    requires Cleaned(q) && SingleFlight(q.cache) && m.released == q.released
    requires GoesOnQuietly(q.cache, m.cache, waiter) || (GoesOnStarting(q.cache, m.cache, waiter, newFetch) && q.cache.entries[q.cache.waiting[waiter].ref].inflight.None?)
    ensures Cleaned(m) && SingleFlight(m.cache)
  {
    hide SharedCooldowns;
  }

  lemma ResumeWaiters(q: Queue, m: Queue, waiter: Waiter, newFetch: Request)
    requires OneInTurn(q) && OneBlind(q.cache) && q.early <= q.cache.waiting.Keys && forall w :: w in q.cache.waiting ==> WaiterInOrder(q, w)
    requires m.released == q.released && m.early == q.early - {waiter}
    requires GoesOnQuietly(q.cache, m.cache, waiter)
             || (&& GoesOnStarting(q.cache, m.cache, waiter, newFetch) && q.cache.entries[q.cache.waiting[waiter].ref].inflight.None?
                 && InTurn(q, waiter) && Blind(q.cache, waiter))
    ensures OneInTurn(m) && OneBlind(m.cache) && m.early <= m.cache.waiting.Keys && forall w :: w in m.cache.waiting ==> WaiterInOrder(m, w)
  {
    LeavesAlone(q.cache, m.cache, waiter, newFetch);
    assert m.cache.waiting == q.cache.waiting - {waiter};
    hide OneInTurn, OneBlind, WaiterInOrder, Blind, InTurn, GoesOn, GoesOnQuietly, GoesOnStarting;
    forall w | w in m.cache.waiting ensures WaiterInOrder(m, w) && Blind(m.cache, w) == Blind(q.cache, w) && InTurn(m, w) == InTurn(q, w) {
      if GoesOnQuietly(q.cache, m.cache, waiter) {
        QuietWaiter(q, m, waiter, w);
      } else {
        OthersSeeing(q, waiter, w);
        StartingWaiter(q, m, waiter, newFetch, w);
      }
    }
    FewerInOrder(q, m, waiter);
  }

  lemma ResumeInOrder(q: Queue, step: Step)
    requires InOrder(q) && step.Resume? && Orderly(q, step)
    ensures InOrder(After(q, step))
  {
    hide Inv, Stamped, SingleFlight, Next, Cleaned, OneInTurn, OneBlind, EarlyFirst, WaiterInOrder, Blind, GoesOnQuietly, GoesOnStarting,
         StartsOwn, InTurn, Draining, After, Enabled, Orderly, StartsNow, GoesOn;
    var s, m := q.cache, After(q, step);
    StepAfter(q, step);
    StampedKeeps(s, step);
    ResumeEffect(s, step);
    if StartsNow(s, step.waiter) { OwnStartIsAlone(q, step); }
    ResumeCleaned(q, m, step.waiter, step.newFetch);
    LeavesAlone(s, m.cache, step.waiter, step.newFetch);
    LeavesOthers(s, m.cache, step.waiter);
    FewerEarlyFirst(q, m);
    ResumeWaiters(q, m, step.waiter, step.newFetch);
  }

  lemma LeavesOthers(s: State, n: State, waiter: Waiter)
    requires GoesOn(s, n, waiter)
    ensures n.waiting == s.waiting - {waiter}
  {
  }

  lemma LeavesAlone(s: State, n: State, waiter: Waiter, newFetch: Request)
    requires GoesOnQuietly(s, n, waiter) || GoesOnStarting(s, n, waiter, newFetch)
    ensures GoesOn(s, n, waiter)
  {
  }

  // ---------- runs ----------

  lemma TickInOrder(q: Queue, step: Step)
    requires InOrder(q) && step.Tick? && Orderly(q, step)
    ensures InOrder(After(q, step))
  {
    NextKeeps(q.cache, step);
    StampedKeeps(q.cache, step);
    assert After(q, step) == q.(cache := q.cache.(clock := step.to));
    hide Inv, Stamped, Orderly, After, Next;
    TickWaiters(q, step.to);
  }

  lemma TickWaiters(q: Queue, to: Instant)
    requires Cleaned(q) && OneInTurn(q) && OneBlind(q.cache) && EarlyFirst(q) && forall w :: w in q.cache.waiting ==> WaiterInOrder(q, w)
    ensures var m := q.(cache := q.cache.(clock := to));
            Cleaned(m) && OneInTurn(m) && OneBlind(m.cache) && EarlyFirst(m) && forall w :: w in m.cache.waiting ==> WaiterInOrder(m, w)
  {
    var m := q.(cache := q.cache.(clock := to));
    hide WaiterInOrder, Blind, InTurn;
    forall w ensures Blind(m.cache, w) == Blind(q.cache, w) && InTurn(m, w) == InTurn(q, w) && (w in q.cache.waiting ==> WaiterInOrder(m, w) == WaiterInOrder(q, w)) { TickWaiter(q, to, w); }
  }

  lemma TickWaiter(q: Queue, to: Instant, w: Waiter)
    ensures var m := q.(cache := q.cache.(clock := to));
            && Blind(m.cache, w) == Blind(q.cache, w) && InTurn(m, w) == InTurn(q, w)
            && (w in q.cache.waiting ==> WaiterInOrder(m, w) == WaiterInOrder(q, w))
  {
  }

  /** While no load that has succeeded is joined, and no load is joined by two blind callers, every
      fetch under way is the one its entry is marked with. */
  lemma AdmittedKeeps(q: Queue, step: Step)
    requires InOrder(q) && Orderly(q, step) && Admitted(q, step)
    ensures InOrder(After(q, step)) && SingleFlight(After(q, step).cache) && UsedStays(q.cache, After(q, step).cache)
  {
    UsedStaysOneStep(q.cache, step);
    match step
    case Tick(_) => TickInOrder(q, step);
    case Call(_, _, _, _, _) => CallInOrder(q, step);
    case Settle(_, _) => SettleInOrder(q, step);
    case Release(_) => ReleaseInOrder(q, step);
    case Resume(_, _) => ResumeInOrder(q, step);
  }

  ghost predicate OrderlyRun(q: Queue, steps: seq<Step>)
    decreases |steps|
  {
    Inv(q.cache) && (steps == [] || (Orderly(q, steps[0]) && OrderlyRun(After(q, steps[0]), steps[1..])))
  }

  ghost function Last(q: Queue, steps: seq<Step>): Queue
    requires OrderlyRun(q, steps)
    decreases |steps|
  {
    if steps == [] then q else Last(After(q, steps[0]), steps[1..])
  }

  ghost predicate AdmittedRun(q: Queue, steps: seq<Step>)
    requires OrderlyRun(q, steps)
    decreases |steps|
  {
    steps == [] || (Admitted(q, steps[0]) && AdmittedRun(After(q, steps[0]), steps[1..]))
  }

  lemma InOrderFlies(q: Queue)
    requires InOrder(q)
    ensures Inv(q.cache) && SingleFlight(q.cache)
  {
  }

  /** In every run of such calls: every fetch under way is the one its entry is marked with, and no
      entry with a fetch under way is evicted. */
  lemma {:induction false} AdmittedRunsKeep(q: Queue, steps: seq<Step>, i: nat)
    requires InOrder(q) && OrderlyRun(q, steps) && AdmittedRun(q, steps) && i < |steps|
    ensures OrderlyRun(q, steps[..i]) && OrderlyRun(q, steps[..i + 1])
    ensures SingleFlight(Last(q, steps[..i]).cache) && SingleFlight(Last(q, steps[..i + 1]).cache)
    ensures UsedStays(Last(q, steps[..i]).cache, Last(q, steps[..i + 1]).cache)
    decreases |steps|
  {
    hide After, Inv, Orderly, Admitted, InOrder, UsedStays, SingleFlight;
    InOrderFlies(q);
    AdmittedKeeps(q, steps[0]);
    var m := After(q, steps[0]);
    InOrderFlies(m);
    if i == 0 {
      assert steps[..0] == [] && steps[..1] == [steps[0]] && [steps[0]][1..] == [];
      assert OrderlyRun(m, []);
    } else {
      AdmittedRunsKeep(m, steps[1..], i - 1);
      assert steps[..i][1..] == steps[1..][..i - 1] && steps[..i + 1][1..] == steps[1..][..i];
    }
  }
}
