/** No lost invalidation: the loop that re-runs subscriptions (sendQueryResult, refreshQueries and
    runSubscriptionQueries in src/server-runtime-source.ts) over the windows of LiveQuery, with
    writes, publications, reads and completions interleaved arbitrarily. */
module LiveQueryRefresh {
  import opened LiveQuery

  type Data = int

  /** A query is deterministic: what it has read so far decides what it does next. */
  datatype Action = Read(table: Table, identified: bool) | Return(data: Data)
  type Query = seq<Content> -> Action

  /** A run in progress or just completed, with the window kept for it. */
  datatype Running = Running(
    initial: bool,
    generation: nat,
    contents: seq<Content>,
    readSet: set<Table>,
    completed: bool,
    pending: bool,
    unscoped: bool,
    dirty: set<Table>
  )

  /** What was delivered last, with the contents that run had read. */
  datatype Subscription = Subscription(
    query: Query,
    readTables: Option<set<Table>>,
    contents: seq<Content>,
    delivered: Option<Data>,
    running: Option<Running>
  )

  /** Tables that were or will be written and are not published yet. */
  datatype Holding = Holding(tables: set<Table>, visible: bool)

  datatype State = State(
    scoped: bool,
    stored: Table -> Content,
    dirty: set<Table>,
    writeGeneration: nat,
    dispatched: nat,
    owners: map<Owner, Holding>,
    subscriptions: map<Subscriber, Subscription>
  )

  datatype Step =
    | Hold(owner: Owner, table: Table)
    | Appear(owner: Owner, written: set<Table>, stored: Table -> Content)
    | Publish(owner: Owner, evaluating: bool)
    | Dispatch
    | Subscribe(subscriber: Subscriber, query: Query)
    | Drop(subscriber: Subscriber)
    | ReadNext(subscriber: Subscriber)
    | Complete(subscriber: Subscriber, failed: bool)
    | Decide(subscriber: Subscriber)

  // ---------- steps ----------

  function Fresh(initial: bool, generation: nat): Running {
    Running(initial, generation, [], {}, false, false, false, {})
  }

  /** What a dispatched window does to one subscription. */
  function Notified(s: State, c: Subscription, window: set<Table>): Subscription {
    if c.running.Some? then
      var r := c.running.value;
      c.(running := Some(r.(pending := true, unscoped := r.unscoped || !s.scoped, dirty := r.dirty + window)))
    else if !s.scoped || NeedsRefresh(c.readTables, window) then c.(running := Some(Fresh(false, s.writeGeneration)))
    else c
  }

  /** refreshQueries. */
  function Dispatched(s: State): State {
    s.(dispatched := s.writeGeneration, dirty := {},
       subscriptions := map x | x in s.subscriptions :: Notified(s, s.subscriptions[x], s.dirty))
  }

  function WithRunning(s: State, x: Subscriber, r: Running): State
    requires x in s.subscriptions
  {
    s.(subscriptions := s.subscriptions[x := s.subscriptions[x].(running := Some(r))])
  }

  ghost predicate IsRunning(s: State, x: Subscriber) { x in s.subscriptions && s.subscriptions[x].running.Some? }

  ghost predicate Enabled(s: State, step: Step) {
    match step
    case Hold(owner, table) => true
    case Appear(owner, written, stored) =>
      && owner in s.owners && (forall t :: t in written ==> Covers(s.owners[owner].tables, t))
      && forall t :: t !in written ==> stored(t) == s.stored(t)
    case Publish(owner, _) => owner in s.owners
    case Dispatch => true
    case Subscribe(x, _) => x !in s.subscriptions
    case Drop(x) => x in s.subscriptions
    case ReadNext(x) =>
      IsRunning(s, x) && var r := s.subscriptions[x].running.value; !r.completed && s.subscriptions[x].query(r.contents).Read?
    case Complete(x, failed) =>
      IsRunning(s, x) && var r := s.subscriptions[x].running.value; !r.completed && (failed || s.subscriptions[x].query(r.contents).Return?)
    case Decide(x) => IsRunning(s, x) && s.subscriptions[x].running.value.completed
  }

  /** The end of one pass of the do loop of runSubscriptionQueries. */
  function Decided(s: State, x: Subscriber): State
    requires x in s.subscriptions && s.subscriptions[x].running.Some?
  {
    var before := s.subscriptions[x].running.value;
    var s1 := if !before.initial && s.writeGeneration != before.generation && s.writeGeneration != s.dispatched then Dispatched(s) else s;
    var c := s1.subscriptions[x];
    var r := c.running.value;
    if !r.pending || (!r.unscoped && !NeedsRefresh(c.readTables, r.dirty)) then
      s1.(subscriptions := s1.subscriptions[x := c.(running := None)])
    else WithRunning(s1, x, Fresh(false, s1.writeGeneration))
  }

  ghost function Next(s: State, step: Step): State
    requires Enabled(s, step)
  {
    match step
    case Hold(owner, table) =>
      var held := if owner in s.owners then s.owners[owner] else Holding({}, false);
      s.(owners := s.owners[owner := held.(tables := held.tables + {table})])
    case Appear(owner, written, stored) =>
      s.(stored := stored, owners := s.owners[owner := s.owners[owner].(visible := true)])
    case Publish(owner, evaluating) =>
      var tables := s.owners[owner].tables;
      s.(owners := s.owners - {owner}, dirty := s.dirty + tables,
         writeGeneration := s.writeGeneration + if evaluating then 0 else |tables|)
    case Dispatch => Dispatched(s)
    case Subscribe(x, query) =>
      s.(subscriptions := s.subscriptions[x := Subscription(query, None, [], None, Some(Fresh(true, s.writeGeneration)))])
    case Drop(x) => s.(subscriptions := s.subscriptions - {x})
    case ReadNext(x) =>
      var c := s.subscriptions[x];
      var r := c.running.value;
      var read := c.query(r.contents);
      WithRunning(s, x, r.(contents := r.contents + [s.stored(read.table)],
                           readSet := r.readSet + {if read.identified then read.table else ANY}))
    case Complete(x, failed) =>
      var c := s.subscriptions[x];
      var r := c.running.value;
      var c' := if failed then c.(readTables := None)
                else c.(readTables := Handed(r.readSet),
                        contents := r.contents, delivered := Some(c.query(r.contents).data));
      s.(subscriptions := s.subscriptions[x := c'.(running := Some(r.(completed := true)))])
    case Decide(x) => Decided(s, x)
  }

  // ---------- what a result means ----------

  /** Run on these stored contents, the query reads these contents in this order. */
  ghost predicate Replays(query: Query, stored: Table -> Content, contents: seq<Content>) {
    forall i :: 0 <= i < |contents| ==> query(contents[..i]).Read? && contents[i] == stored(query(contents[..i]).table)
  }

  /** Run on these stored contents, the query returns this. */
  ghost predicate Evaluates(query: Query, stored: Table -> Content, data: Data) {
    exists contents :: Replays(query, stored, contents) && query(contents) == Return(data)
  }

  lemma {:induction false} ReplaysAgree(query: Query, stored: Table -> Content, a: seq<Content>, b: seq<Content>, i: nat)
    requires Replays(query, stored, a) && Replays(query, stored, b) && i <= |a| && i <= |b|
    ensures a[..i] == b[..i]
  {
    if i > 0 {
      ReplaysAgree(query, stored, a, b, i - 1);
      assert a[..i] == a[..i - 1] + [a[i - 1]] && b[..i] == b[..i - 1] + [b[i - 1]];
    }
  }

  /** There is at most one result. */
  lemma EvaluatesOnce(query: Query, stored: Table -> Content, a: Data, b: Data)
    requires Evaluates(query, stored, a) && Evaluates(query, stored, b)
    ensures a == b
  {
    var x :| Replays(query, stored, x) && query(x) == Return(a);
    var y :| Replays(query, stored, y) && query(y) == Return(b);
    var n := if |x| <= |y| then |x| else |y|;
    ReplaysAgree(query, stored, x, y, n);
    assert x[..|x|] == x && y[..|y|] == y;
  }

  // ---------- the invariant ----------

  /** Something is on its way that re-runs whoever read the table. */
  ghost predicate Marked(s: State, kept: set<Table>, table: Table) {
    || Covers(s.dirty, table) || Covers(kept, table)
    || exists o :: o in s.owners && s.owners[o].visible && Covers(s.owners[o].tables, table)
  }

  function Kept(c: Subscription): set<Table> { if c.running.Some? then c.running.value.dirty else {} }

  ghost predicate Unmarked(s: State, kept: set<Table>, readSet: set<Table>) {
    ANY !in readSet && forall t :: t in readSet ==> !Marked(s, kept, t)
  }

  /** The reads of a run are in its read set. */
  ghost predicate ReadsKnown(query: Query, contents: seq<Content>, readSet: set<Table>) {
    forall i :: 0 <= i < |contents| ==>
      query(contents[..i]).Read? && (if query(contents[..i]).identified then query(contents[..i]).table else ANY) in readSet
  }

  /** Unless something on its way re-runs the query, what it read is what is stored now. */
  ghost predicate Current(s: State, kept: set<Table>, query: Query, contents: seq<Content>, readSet: set<Table>) {
    && ReadsKnown(query, contents, readSet)
    && (Unmarked(s, kept, readSet) ==> Replays(query, s.stored, contents))
  }

  ghost predicate RunSound(s: State, c: Subscription)
    requires c.running.Some?
  {
    var r := c.running.value;
    && (!r.pending ==> r.dirty == {})
    && (!r.completed ==> Current(s, r.dirty, c.query, r.contents, r.readSet))
  }

  ghost predicate ResultSound(s: State, c: Subscription)
    requires c.readTables.Some?
  {
    && ANY !in c.readTables.value && c.delivered.Some? && c.query(c.contents) == Return(c.delivered.value)
    && Current(s, Kept(c), c.query, c.contents, c.readTables.value)
  }

  ghost predicate Sound(s: State, c: Subscription) {
    && (c.running.Some? ==> RunSound(s, c))
    && (c.readTables.Some? && (c.running.None? || c.running.value.completed) ==> ResultSound(s, c))
  }

  ghost predicate Inv(s: State) {
    s.scoped && forall x :: x in s.subscriptions ==> Sound(s, s.subscriptions[x])
  }

  /** Current survives when no mark on what was read goes away. */
  lemma CurrentStays(s: State, n: State, kept: set<Table>, kept': set<Table>, query: Query, contents: seq<Content>, readSet: set<Table>)
    requires Current(s, kept, query, contents, readSet) && n.stored == s.stored
    requires forall t :: t in readSet && Marked(s, kept, t) ==> Marked(n, kept', t)
    ensures Current(n, kept', query, contents, readSet)
  {
    hide Marked;
  }

  ghost predicate MarksStay(s: State, n: State) {
    n.stored == s.stored && forall kept, t :: Marked(s, kept, t) ==> Marked(n, kept, t)
  }

  lemma SoundStays(s: State, n: State, c: Subscription)
    requires Sound(s, c) && MarksStay(s, n)
    ensures Sound(n, c)
  {
    hide Current, Marked;
    if c.running.Some? && !c.running.value.completed {
      var r := c.running.value;
      CurrentStays(s, n, r.dirty, r.dirty, c.query, r.contents, r.readSet);
    }
    if c.readTables.Some? && (c.running.None? || c.running.value.completed) {
      CurrentStays(s, n, Kept(c), Kept(c), c.query, c.contents, c.readTables.value);
    }
  }

  lemma HoldKeepsMarks(s: State, owner: Owner, table: Table)
    ensures MarksStay(s, Next(s, Hold(owner, table)))
  {
    var n := Next(s, Hold(owner, table));
    forall kept, t | Marked(s, kept, t) ensures Marked(n, kept, t) {
      if o :| o in s.owners && s.owners[o].visible && Covers(s.owners[o].tables, t) {
        assert o in n.owners && n.owners[o].visible && Covers(n.owners[o].tables, t);
      }
    }
  }

  lemma PublishKeepsMarks(s: State, owner: Owner, evaluating: bool)
    requires owner in s.owners
    ensures MarksStay(s, Next(s, Step.Publish(owner, evaluating)))
  {
    var n := Next(s, Step.Publish(owner, evaluating));
    forall kept, t | Marked(s, kept, t) ensures Marked(n, kept, t) {
      if !Covers(s.dirty, t) && !Covers(kept, t) {
        var o :| o in s.owners && s.owners[o].visible && Covers(s.owners[o].tables, t);
        if o != owner { assert o in n.owners && n.owners[o].visible && Covers(n.owners[o].tables, t); }
      }
    }
  }

  /** A write that becomes visible marks every table it changes. */
  lemma AppearKeepsCurrent(s: State, step: Step, kept: set<Table>, query: Query, contents: seq<Content>, readSet: set<Table>)
    requires step.Appear? && Enabled(s, step) && Current(s, kept, query, contents, readSet)
    ensures Current(Next(s, step), kept, query, contents, readSet)
  {
    var n := Next(s, step);
    assert step.owner in n.owners && n.owners[step.owner].visible;
    forall t | Marked(s, kept, t) ensures Marked(n, kept, t) {
      if o :| o in s.owners && s.owners[o].visible && Covers(s.owners[o].tables, t) {
        assert o in n.owners && n.owners[o].visible && Covers(n.owners[o].tables, t);
      }
    }
    forall t | t in step.written ensures Marked(n, kept, t) {
      assert Covers(n.owners[step.owner].tables, t);
    }
    if Unmarked(n, kept, readSet) {
      assert Unmarked(s, kept, readSet);
      forall i | 0 <= i < |contents| ensures query(contents[..i]).Read? && contents[i] == n.stored(query(contents[..i]).table) {
        assert query(contents[..i]).table in readSet;
      }
    }
  }

  lemma AppearKeeps(s: State, step: Step, c: Subscription)
    requires step.Appear? && Enabled(s, step) && Sound(s, c)
    ensures Sound(Next(s, step), c)
  {
    hide Current, Next;
    if c.running.Some? && !c.running.value.completed {
      var r := c.running.value;
      AppearKeepsCurrent(s, step, r.dirty, c.query, r.contents, r.readSet);
    }
    if c.readTables.Some? && (c.running.None? || c.running.value.completed) {
      AppearKeepsCurrent(s, step, Kept(c), c.query, c.contents, c.readTables.value);
    }
  }

  /** A window handed to a subscription keeps the marks it takes away. */
  lemma WindowIsKept(s: State, kept: set<Table>, t: Table)
    requires Marked(s, kept, t)
    ensures Marked(Dispatched(s), kept + s.dirty, t)
  {
    var n := Dispatched(s);
    assert n.owners == s.owners;
    if o :| o in s.owners && s.owners[o].visible && Covers(s.owners[o].tables, t) {
      assert o in n.owners && n.owners[o].visible && Covers(n.owners[o].tables, t);
    }
  }

  /** A window that does not meet a read set marks nothing in it. */
  lemma WindowIsMissed(s: State, readSet: set<Table>, t: Table)
    requires !NeedsRefresh(Some(readSet), s.dirty) && t in readSet && Marked(s, {}, t)
    ensures Marked(Dispatched(s), {}, t)
  {
    var n := Dispatched(s);
    var o :| o in s.owners && s.owners[o].visible && Covers(s.owners[o].tables, t);
    assert o in n.owners && n.owners[o].visible && Covers(n.owners[o].tables, t);
  }

  lemma FreshIsSound(s: State, c: Subscription, initial: bool, generation: nat)
    requires c.running == Some(Fresh(initial, generation))
    ensures Sound(s, c)
  {
  }

  lemma NotifiedIsSound(s: State, c: Subscription)
    requires s.scoped && Sound(s, c)
    ensures Sound(Dispatched(s), Notified(s, c, s.dirty))
  {
    hide Current, Marked;
    var n := Dispatched(s);
    if c.running.Some? {
      forall kept, t | Marked(s, kept, t) ensures Marked(n, kept + s.dirty, t) { WindowIsKept(s, kept, t); }
      var r := c.running.value;
      if r.completed {
        if c.readTables.Some? { CurrentStays(s, n, r.dirty, r.dirty + s.dirty, c.query, c.contents, c.readTables.value); }
      } else {
        CurrentStays(s, n, r.dirty, r.dirty + s.dirty, c.query, r.contents, r.readSet);
      }
    } else if NeedsRefresh(c.readTables, s.dirty) {
      FreshIsSound(n, Notified(s, c, s.dirty), false, s.writeGeneration);
    } else {
      var readSet := c.readTables.value;
      forall t | t in readSet && Marked(s, {}, t) ensures Marked(n, {}, t) { WindowIsMissed(s, readSet, t); }
      CurrentStays(s, n, {}, {}, c.query, c.contents, readSet);
    }
  }

  lemma DispatchedKeeps(s: State)
    requires Inv(s)
    ensures Inv(Dispatched(s))
  {
    hide Sound;
    forall x | x in s.subscriptions ensures Sound(Dispatched(s), Dispatched(s).subscriptions[x]) {
      NotifiedIsSound(s, s.subscriptions[x]);
    }
  }

  /** Soundness does not look at the other subscriptions. */
  lemma SoundElsewhere(s: State, n: State, c: Subscription)
    requires Sound(s, c) && n.stored == s.stored && n.dirty == s.dirty && n.owners == s.owners
    ensures Sound(n, c)
  {
    assert MarksStay(s, n);
    SoundStays(s, n, c);
  }

  lemma ReadIsSound(s: State, x: Subscriber)
    requires Inv(s) && Enabled(s, ReadNext(x))
    ensures Sound(s, Next(s, ReadNext(x)).subscriptions[x])
  {
    hide Marked;
    var c := s.subscriptions[x];
    var r := c.running.value;
    var r' := Next(s, ReadNext(x)).subscriptions[x].running.value;
    assert Sound(s, c);
    forall i | 0 <= i < |r'.contents| ensures r'.contents[..i] == if i < |r.contents| then r.contents[..i] else r.contents {}
    assert Current(s, r.dirty, c.query, r.contents, r.readSet);
    if Unmarked(s, r'.dirty, r'.readSet) {
      assert forall t :: t in r.readSet ==> t in r'.readSet;
      assert Unmarked(s, r.dirty, r.readSet);
    }
  }

  lemma CompleteIsSound(s: State, x: Subscriber, failed: bool)
    requires Inv(s) && Enabled(s, Complete(x, failed))
    ensures Sound(s, Next(s, Complete(x, failed)).subscriptions[x])
  {
    hide Current;
    assert Sound(s, s.subscriptions[x]);
  }

  /** Going idle drops a kept window only if it is empty or misses the read set. */
  lemma IdleIsSound(s: State, c: Subscription)
    requires c.running.Some? && c.running.value.completed && Sound(s, c)
    requires !c.running.value.pending || !NeedsRefresh(c.readTables, c.running.value.dirty)
    ensures Sound(s, c.(running := None))
  {
    hide Current;
    if c.readTables.Some? {
      var r, readSet := c.running.value, c.readTables.value;
      forall t | t in readSet && Marked(s, r.dirty, t) ensures Marked(s, {}, t) {
        assert r.dirty == {} || !NeedsRefresh(Some(readSet), r.dirty);
      }
      CurrentStays(s, s, r.dirty, {}, c.query, c.contents, readSet);
    }
  }

  /** Being notified leaves a run under way as it is, except for its window. */
  lemma StillCompleted(s: State, x: Subscriber)
    requires x in s.subscriptions && s.subscriptions[x].running.Some?
    ensures x in Dispatched(s).subscriptions
    ensures var c := Dispatched(s).subscriptions[x];
            c.running.Some? && c.running.value.completed == s.subscriptions[x].running.value.completed
  {
  }

  lemma Replaced(s: State, x: Subscriber, c: Subscription)
    requires Inv(s) && Sound(s, c)
    ensures Inv(s.(subscriptions := s.subscriptions[x := c]))
  {
    hide Sound;
    var n := s.(subscriptions := s.subscriptions[x := c]);
    forall y | y in n.subscriptions ensures Sound(n, n.subscriptions[y]) {
      SoundElsewhere(s, n, n.subscriptions[y]);
    }
  }

  lemma DecidedKeeps(s: State, x: Subscriber)
    requires Inv(s) && Enabled(s, Decide(x))
    ensures Inv(Decided(s, x))
  {
    hide Sound, Inv, Dispatched;
    var before := s.subscriptions[x].running.value;
    var again := !before.initial && s.writeGeneration != before.generation && s.writeGeneration != s.dispatched;
    if again {
      DispatchedKeeps(s);
      StillCompleted(s, x);
    }
    var s1 := if again then Dispatched(s) else s;
    var c := s1.subscriptions[x];
    OneIsSound(s1, x);
    if !c.running.value.pending || (!c.running.value.unscoped && !NeedsRefresh(c.readTables, c.running.value.dirty)) {
      IdleIsSound(s1, c);
      Replaced(s1, x, c.(running := None));
    } else {
      var c' := c.(running := Some(Fresh(false, s1.writeGeneration)));
      FreshIsSound(s1, c', false, s1.writeGeneration);
      Replaced(s1, x, c');
    }
  }

  lemma OneIsSound(s: State, x: Subscriber)
    requires Inv(s) && x in s.subscriptions
    ensures Sound(s, s.subscriptions[x])
  {
  }

  lemma NextKeeps(s: State, step: Step)
    requires Inv(s) && Enabled(s, step)
    ensures Inv(Next(s, step))
  {
    hide Sound;
    match step
    case Dispatch => DispatchedKeeps(s);
    case Decide(x) => DecidedKeeps(s, x);
    case Subscribe(x, query) =>
      var c := Subscription(query, None, [], None, Some(Fresh(true, s.writeGeneration)));
      FreshIsSound(s, c, true, s.writeGeneration);
      Replaced(s, x, c);
    case ReadNext(x) =>
      ReadIsSound(s, x);
      Replaced(s, x, Next(s, step).subscriptions[x]);
    case Complete(x, failed) =>
      CompleteIsSound(s, x, failed);
      Replaced(s, x, Next(s, step).subscriptions[x]);
    case Drop(x) =>
      forall y | y in s.subscriptions && y != x ensures Sound(Next(s, step), s.subscriptions[y]) {
        SoundElsewhere(s, Next(s, step), s.subscriptions[y]);
      }
    case _ =>
      forall y | y in s.subscriptions ensures Sound(Next(s, step), s.subscriptions[y]) {
        WriteKeeps(s, step, s.subscriptions[y]);
      }
  }

  lemma WriteKeeps(s: State, step: Step, c: Subscription)
    requires Enabled(s, step) && (step.Hold? || step.Appear? || step.Publish?) && Sound(s, c)
    ensures Sound(Next(s, step), c)
  {
    hide Sound;
    match step
    case Hold(owner, table) => HoldKeepsMarks(s, owner, table); SoundStays(s, Next(s, step), c);
    case Publish(owner, evaluating) => PublishKeepsMarks(s, owner, evaluating); SoundStays(s, Next(s, step), c);
    case Appear(_, _, _) => AppearKeeps(s, step, c);
  }

  // ---------- runs ----------

  ghost predicate Initial(s: State) { s.scoped && s.subscriptions == map[] }

  ghost predicate Runs(s: State, steps: seq<Step>)
    decreases |steps|
  {
    steps == [] || (Enabled(s, steps[0]) && Runs(Next(s, steps[0]), steps[1..]))
  }

  ghost function Final(s: State, steps: seq<Step>): State
    requires Runs(s, steps)
    decreases |steps|
  {
    if steps == [] then s else Final(Next(s, steps[0]), steps[1..])
  }

  lemma {:induction false} RunKeeps(s: State, steps: seq<Step>)
    requires Inv(s) && Runs(s, steps)
    ensures Inv(Final(s, steps))
    decreases |steps|
  {
    if steps != [] {
      NextKeeps(s, steps[0]);
      RunKeeps(Next(s, steps[0]), steps[1..]);
    }
  }

  /** No visible write waits for its publication. */
  ghost predicate AllPublished(s: State) { forall o :: o in s.owners ==> !s.owners[o].visible }

  /** In every run, once no visible write waits for publication, an idle subscription whose read
      set the pending window misses has delivered what re-running its query would return. */
  lemma NoLostInvalidation(s: State, steps: seq<Step>, x: Subscriber)
    requires Initial(s) && Runs(s, steps) && AllPublished(Final(s, steps)) && x in Final(s, steps).subscriptions
    requires Final(s, steps).subscriptions[x].running.None? && !NeedsRefresh(Final(s, steps).subscriptions[x].readTables, Final(s, steps).dirty)
    ensures var n := Final(s, steps); var c := n.subscriptions[x];
            c.delivered.Some? && Evaluates(c.query, n.stored, c.delivered.value)
  {
    RunKeeps(s, steps);
    IdleIsCurrent(Final(s, steps), x);
  }

  lemma IdleIsCurrent(s: State, x: Subscriber)
    requires Inv(s) && AllPublished(s) && x in s.subscriptions && s.subscriptions[x].running.None?
    requires !NeedsRefresh(s.subscriptions[x].readTables, s.dirty)
    ensures s.subscriptions[x].delivered.Some?
    ensures Evaluates(s.subscriptions[x].query, s.stored, s.subscriptions[x].delivered.value)
  {
    var c := s.subscriptions[x];
    assert Sound(s, c);
    assert Unmarked(s, {}, c.readTables.value);
    assert Replays(c.query, s.stored, c.contents);
  }

  /** So a window leaves every subscription re-running or up to date. */
  lemma DispatchLeavesNothingBehind(s: State, steps: seq<Step>, x: Subscriber)
    requires Initial(s) && Runs(s, steps) && AllPublished(Final(s, steps)) && x in Final(s, steps).subscriptions
    ensures var n := Dispatched(Final(s, steps)); var c := n.subscriptions[x];
            c.running.Some? || (c.delivered.Some? && Evaluates(c.query, n.stored, c.delivered.value))
  {
    hide Evaluates, Inv;
    var before := Final(s, steps);
    RunKeeps(s, steps);
    DispatchedKeeps(before);
    var n := Dispatched(before);
    if n.subscriptions[x].running.None? {
      IdleIsCurrent(n, x);
    }
  }

  // ---------- no needless re-runs ----------

  /** A window of these tables does not concern who has read these. */
  ghost predicate Apart(tables: set<Table>, readSet: set<Table>) { ANY !in tables && tables !! readSet }

  /** The last run has read these tables, and nothing on its way, visible or not, concerns them. */
  ghost predicate Quiet(s: State, x: Subscriber, readSet: set<Table>) {
    && s.scoped && x in s.subscriptions && s.subscriptions[x].readTables == Some(readSet)
    && (s.subscriptions[x].running.Some? ==> s.subscriptions[x].running.value.completed && !s.subscriptions[x].running.value.unscoped)
    && Apart(s.dirty, readSet) && Apart(Kept(s.subscriptions[x]), readSet)
    && forall o :: o in s.owners ==> Apart(s.owners[o].tables, readSet)
  }

  /** The step neither announces a write of these tables nor drops the subscription. */
  ghost predicate Elsewhere(step: Step, x: Subscriber, readSet: set<Table>) {
    match step
    case Hold(_, table) => Apart({table}, readSet)
    case Drop(y) => y != x
    case _ => true
  }

  lemma QuietDispatch(s: State, x: Subscriber, readSet: set<Table>)
    requires Quiet(s, x, readSet)
    ensures Quiet(Dispatched(s), x, readSet)
    ensures Dispatched(s).subscriptions[x].(running := None) == s.subscriptions[x].(running := None)
    ensures s.subscriptions[x].running.None? <==> Dispatched(s).subscriptions[x].running.None?
  {
  }

  lemma QuietStays(s: State, step: Step, x: Subscriber, readSet: set<Table>)
    requires Quiet(s, x, readSet) && Enabled(s, step) && Elsewhere(step, x, readSet)
    ensures Quiet(Next(s, step), x, readSet)
    ensures Next(s, step).subscriptions[x].(running := None) == s.subscriptions[x].(running := None)
    ensures s.subscriptions[x].running.None? || step == Decide(x) ==> Next(s, step).subscriptions[x].running.None?
  {
    if step.Dispatch? || step.Decide? { QuietDispatch(s, x, readSet); }
  }

  /** While every write is of tables that a completed run has not read, the query is not run again:
      when its loop ends it is idle, and idle it stays, with what it delivered. */
  lemma {:induction false} OtherTablesDoNotRerun(s: State, steps: seq<Step>, x: Subscriber, readSet: set<Table>)
    requires Quiet(s, x, readSet) && Runs(s, steps) && forall i :: 0 <= i < |steps| ==> Elsewhere(steps[i], x, readSet)
    ensures var n := Final(s, steps);
            && x in n.subscriptions && n.subscriptions[x].(running := None) == s.subscriptions[x].(running := None)
            && (n.subscriptions[x].running.Some? ==> n.subscriptions[x].running.value.completed)
            && (s.subscriptions[x].running.None? || Decide(x) in steps ==> n.subscriptions[x].running.None?)
    decreases |steps|
  {
    if steps != [] {
      QuietStays(s, steps[0], x, readSet);
      OtherTablesDoNotRerun(Next(s, steps[0]), steps[1..], x, readSet);
    }
  }

  // ---------- a refresh publishes what landed meanwhile ----------

  /** Recordings are counted, and a dispatch notes the count. */
  lemma {:induction false} CountsGrow(s: State, steps: seq<Step>)
    requires s.dispatched <= s.writeGeneration && Runs(s, steps)
    ensures s.dispatched <= Final(s, steps).dispatched <= Final(s, steps).writeGeneration && s.writeGeneration <= Final(s, steps).writeGeneration
    decreases |steps|
  {
    if steps != [] { CountsGrow(Next(s, steps[0]), steps[1..]); }
  }

  /** The run that is under way is the one that was started at this count. */
  ghost predicate StartedAt(s: State, x: Subscriber, generation: nat) {
    IsRunning(s, x) && s.subscriptions[x].running.value.generation == generation && !s.subscriptions[x].running.value.initial
  }

  lemma {:induction false} StillStartedAt(s: State, steps: seq<Step>, x: Subscriber, generation: nat)
    requires StartedAt(s, x, generation) && Runs(s, steps) && Decide(x) !in steps && Drop(x) !in steps
    ensures StartedAt(Final(s, steps), x, generation)
    decreases |steps|
  {
    if steps != [] { StillStartedAt(Next(s, steps[0]), steps[1..], x, generation); }
  }

  /** What is counted while a refresh runs has been handed to every subscription by the time its
      pass ends, without waiting for another call. */
  lemma RefreshAnnouncesWrites(s: State, before: seq<Step>, after: seq<Step>, x: Subscriber)
    requires s.dispatched <= s.writeGeneration && Runs(s, before)
    requires var started := Final(s, before);
             && StartedAt(started, x, started.writeGeneration) && Runs(started, after) && Decide(x) !in after && Drop(x) !in after
             && started.writeGeneration < Final(started, after).writeGeneration && Enabled(Final(started, after), Decide(x))
    ensures var ended := Final(Final(s, before), after);
            Next(ended, Decide(x)).dispatched == ended.writeGeneration
  {
    var started := Final(s, before);
    CountsGrow(s, before);
    CountsGrow(started, after);
    StillStartedAt(started, after, x, started.writeGeneration);
  }

  /** The steps that record while a live query is evaluated record nothing. */
  ghost predicate AllCounted(steps: seq<Step>, s: State)
    requires Runs(s, steps)
    decreases |steps|
  {
    steps == [] || ((steps[0].Publish? && steps[0].evaluating ==> s.owners[steps[0].owner].tables == {}) && AllCounted(steps[1..], Next(s, steps[0])))
  }

  /** When every recording is counted, an equal count means an empty window. */
  lemma {:induction false} EqualCountIsEmptyWindow(s: State, steps: seq<Step>)
    requires s.dispatched <= s.writeGeneration && (s.dirty != {} ==> s.dispatched < s.writeGeneration)
    requires Runs(s, steps) && AllCounted(steps, s)
    ensures Final(s, steps).dispatched == Final(s, steps).writeGeneration ==> Final(s, steps).dirty == {}
    decreases |steps|
  {
    if steps != [] { EqualCountIsEmptyWindow(Next(s, steps[0]), steps[1..]); }
  }

  /** The pass ends without a dispatch: only its own subscription changes. */
  ghost predicate EndsAlone(s: State, x: Subscriber)
    requires Enabled(s, Decide(x))
  {
    var n := Next(s, Decide(x));
    n.dirty == s.dirty && n.dispatched == s.dispatched && n.subscriptions - {x} == s.subscriptions - {x}
  }

  lemma {:induction false} NothingCounted(s: State, steps: seq<Step>)
    requires Runs(s, steps) && forall i :: 0 <= i < |steps| && steps[i].Publish? ==> steps[i].evaluating
    ensures Final(s, steps).writeGeneration == s.writeGeneration
    ensures s.dispatched == s.writeGeneration ==> Final(s, steps).dispatched == s.writeGeneration
    decreases |steps|
  {
    if steps != [] { NothingCounted(Next(s, steps[0]), steps[1..]); }
  }

  /** A window that another caller has dispatched is not sent twice. */
  lemma NotSentTwice(s: State, steps: seq<Step>, x: Subscriber)
    requires Runs(Dispatched(s), steps) && forall i :: 0 <= i < |steps| && steps[i].Publish? ==> steps[i].evaluating
    requires Enabled(Final(Dispatched(s), steps), Decide(x))
    ensures EndsAlone(Final(Dispatched(s), steps), x)
  {
    NothingCounted(Dispatched(s), steps);
  }

  /** A refresh while nothing is counted starts no dispatch. */
  lemma NothingLanded(s: State, steps: seq<Step>, x: Subscriber)
    requires StartedAt(s, x, s.writeGeneration) && Runs(s, steps) && Decide(x) !in steps && Drop(x) !in steps
    requires (forall i :: 0 <= i < |steps| && steps[i].Publish? ==> steps[i].evaluating) && Enabled(Final(s, steps), Decide(x))
    ensures EndsAlone(Final(s, steps), x)
  {
    NothingCounted(s, steps);
    StillStartedAt(s, steps, x, s.writeGeneration);
  }

  /** The first run of a subscription starts no dispatch. */
  lemma {:induction false} FirstRunEndsAlone(s: State, steps: seq<Step>, x: Subscriber)
    requires IsRunning(s, x) && s.subscriptions[x].running.value.initial
    requires Runs(s, steps) && Decide(x) !in steps && Drop(x) !in steps && Enabled(Final(s, steps), Decide(x))
    ensures EndsAlone(Final(s, steps), x)
    decreases |steps|
  {
    if steps != [] { FirstRunEndsAlone(Next(s, steps[0]), steps[1..], x); }
  }

  // ---------- without table tracking ----------

  /** A run under way keeps what a dispatch without table tracking told it. */
  lemma {:induction false} ToldStays(s: State, steps: seq<Step>, x: Subscriber)
    requires IsRunning(s, x) && s.subscriptions[x].running.value.pending && s.subscriptions[x].running.value.unscoped
    requires Runs(s, steps) && Decide(x) !in steps && Drop(x) !in steps
    ensures var n := Final(s, steps);
            IsRunning(n, x) && n.subscriptions[x].running.value.pending && n.subscriptions[x].running.value.unscoped
    decreases |steps|
  {
    if steps != [] { ToldStays(Next(s, steps[0]), steps[1..], x); }
  }

  /** Where tables are not tracked, every subscription runs again after a dispatch, whatever it has
      read: an idle one at once, and one that is running as soon as its pass ends. */
  lemma UntrackedRerunsAll(s: State, steps: seq<Step>, x: Subscriber)
    requires !s.scoped && x in s.subscriptions && Runs(Dispatched(s), steps) && Decide(x) !in steps && Drop(x) !in steps
    ensures IsRunning(Dispatched(s), x)
    ensures s.subscriptions[x].running.None? ==> Dispatched(s).subscriptions[x].running == Some(Fresh(false, s.writeGeneration))
    ensures s.subscriptions[x].running.Some? && Enabled(Final(Dispatched(s), steps), Decide(x)) ==>
              var again := Next(Final(Dispatched(s), steps), Decide(x)).subscriptions[x].running;
              again.Some? && again.value.contents == [] && !again.value.completed
  {
    if s.subscriptions[x].running.Some? { ToldStays(Dispatched(s), steps, x); }
  }
}
