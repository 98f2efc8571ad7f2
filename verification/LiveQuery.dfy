/** Table-scoped live query refresh (src/live-query-invalidation.ts) and the loop that re-runs
    subscriptions (src/server-runtime-source.ts).  Writes, publications, windows, query reads and
    completions interleave arbitrarily.  A write that was visible before its tables were published
    is held by an owner: a transaction, or a direct statement between its effect and its record. */
module LiveQuery {

  type Table = string
  type Content = int
  type Owner = nat
  type Subscriber = nat

  const ANY: Table := "*"

  datatype Option<T> = None | Some(value: T)

  // ---------- what a statement is recorded as ----------

  /** What the patterns of the source read off a statement's text: whether text follows its first
      semicolon, whether it opens with a keyword that writes nothing, and the one table it writes. */
  datatype Statement = Statement(followed: bool, nonWriting: bool, table: Option<Table>)

  /** recordLiveQueryStatementWrite: the table to record, if any. */
  function RecordedTable(statement: Statement, changes: Option<nat>): Option<Table> {
    if statement.followed then Some(ANY)
    else if statement.nonWriting then None
    else if statement.table.Some? && changes == Some(0) then None
    else Some(if statement.table.Some? then statement.table.value else ANY)
  }

  ghost predicate Covers(tables: set<Table>, table: Table) { table in tables || ANY in tables }

  /** What the patterns promise about the tables that were written. */
  ghost predicate Describes(statement: Statement, changes: Option<nat>, written: set<Table>) {
    !statement.followed ==>
      && (statement.nonWriting ==> written == {})
      && (statement.table.Some? ==> written <= {statement.table.value})
      && (statement.table.Some? && changes == Some(0) ==> written == {})
  }

  /** Every table a statement wrote is covered by what is recorded, and nothing is recorded only if
      nothing was written. */
  lemma RecordingCovers(statement: Statement, changes: Option<nat>, written: set<Table>)
    requires Describes(statement, changes, written)
    ensures forall t :: t in written ==> RecordedTable(statement, changes).Some? && Covers({RecordedTable(statement, changes).value}, t)
    ensures statement.followed || (!statement.nonWriting && statement.table.None?) ==> RecordedTable(statement, changes) == Some(ANY)
  {
  }

  /** No recording could be narrower: nothing is recorded exactly when nothing can have been written,
      one table exactly when no other can have been, and every table when any can have been. */
  lemma RecordingIsNarrow(statement: Statement, changes: Option<nat>)
    requires statement.table != Some(ANY)
    ensures RecordedTable(statement, changes).None? <==> forall written :: Describes(statement, changes, written) ==> written == {}
    ensures forall t :: t != ANY ==>
              (RecordedTable(statement, changes) == Some(t) <==>
                 Describes(statement, changes, {t}) && forall written :: Describes(statement, changes, written) ==> written <= {t})
    ensures RecordedTable(statement, changes) == Some(ANY) <==> forall written :: Describes(statement, changes, written)
  {
    var r := RecordedTable(statement, changes);
    assert Describes(statement, changes, {});
    if r == Some(ANY) {
      assert Describes(statement, changes, {"a"}) && Describes(statement, changes, {"b"});
      assert "a" in {"a"} && "b" in {"b"} && "a" != "b";
    } else if r.Some? {
      assert Describes(statement, changes, {r.value});
      assert !Describes(statement, changes, {ANY});
      assert r.value in {r.value};
    } else {
      assert !Describes(statement, changes, {ANY});
      assert ANY in {ANY};
    }
  }

  // ---------- what needs a refresh ----------

  /** A read set that is not known yet, or a window that names every table, always re-runs. */
  predicate NeedsRefresh(readTables: Option<set<Table>>, dirty: set<Table>) {
    readTables.None? || ANY in dirty || exists t :: t in readTables.value && t in dirty
  }

  /** liveQueryNeedsRefresh, with the read set in some order. */
  method LiveQueryNeedsRefresh(readTables: Option<seq<Table>>, dirty: set<Table>) returns (refresh: bool)
    ensures refresh <==> NeedsRefresh(if readTables.None? then None else Some(set t | t in readTables.value), dirty)
  {
    if readTables.None? || ANY in dirty { return true; }
    for i := 0 to |readTables.value|
      invariant forall k :: 0 <= k < i ==> readTables.value[k] !in dirty
    {
      if readTables.value[i] in dirty { return true; }
    }
    return false;
  }

  /** What a window must do for a read set: an unidentified read depends on every table. */
  ghost predicate MayHaveChanged(readSet: set<Table>, dirty: set<Table>) {
    exists t :: t in dirty && (t == ANY || Covers(readSet, t))
  }

  /** The answer is right for every window of the tables there are exactly when the read set holds
      no unidentified read, or names every table anyway. */
  lemma RefreshIsRightExactlyWhenIdentified(readSet: set<Table>, tables: set<Table>)
    requires ANY !in tables
    ensures (forall dirty :: dirty <= tables + {ANY} ==> (NeedsRefresh(Some(readSet), dirty) <==> MayHaveChanged(readSet, dirty)))
            <==> ANY !in readSet || tables <= readSet
  {
    if ANY !in readSet || tables <= readSet {
      forall dirty | dirty <= tables + {ANY} ensures NeedsRefresh(Some(readSet), dirty) <==> MayHaveChanged(readSet, dirty) {
        RefreshOfNamedTables(readSet, tables, dirty);
      }
    } else {
      var t :| t in tables && t !in readSet;
      assert {t} <= tables + {ANY} && t != ANY;
      assert Covers(readSet, t) && MayHaveChanged(readSet, {t}) && !NeedsRefresh(Some(readSet), {t});
    }
  }

  lemma RefreshOfNamedTables(readSet: set<Table>, tables: set<Table>, dirty: set<Table>)
    requires dirty <= tables + {ANY} && (ANY !in readSet || tables <= readSet)
    ensures NeedsRefresh(Some(readSet), dirty) <==> MayHaveChanged(readSet, dirty)
  {
    if NeedsRefresh(Some(readSet), dirty) && ANY !in dirty {
      var t :| t in readSet && t in dirty;
      assert Covers(readSet, t);
    }
    if MayHaveChanged(readSet, dirty) && ANY !in dirty {
      var t :| t in dirty && Covers(readSet, t);
      assert t in tables && t in readSet;
    }
  }

  /** What the caller passes after a run: a read set with an unidentified read counts as unknown. */
  function Handed(readSet: set<Table>): Option<set<Table>> {
    if ANY in readSet then None else Some(readSet)
  }

  /** With that, the answer is right for every read set and every window, except that a run with an
      unidentified read is repeated by an empty window too. */
  lemma HandedIsRight(readSet: set<Table>, dirty: set<Table>)
    ensures NeedsRefresh(Handed(readSet), dirty) <==> MayHaveChanged(readSet, dirty) || (ANY in readSet && dirty == {})
  {
    if ANY in readSet {
      if dirty != {} {
        var t :| t in dirty;
        assert Covers(readSet, t);
      }
    } else {
      RefreshOfNamedTables(readSet, dirty - {ANY}, dirty);
    }
  }

  lemma UnidentifiedReadIsSkipped()
    ensures !NeedsRefresh(Some({ANY}), {"users"}) && MayHaveChanged({ANY}, {"users"})
  {
    assert Covers({ANY}, "users");
  }

  // ---------- the module's windows ----------

  /** The calls of a history. */
  datatype Event = Record(table: Table) | Publish(tables: seq<Table>) | Take

  function Takes(history: seq<Event>): nat {
    if history == [] then 0 else Takes(history[..|history| - 1]) + if history[|history| - 1].Take? then 1 else 0
  }

  predicate Records(event: Event, table: Table) {
    match event
    case Record(t) => t == table
    case Publish(tables) => table in tables
    case Take => false
  }

  /** The table was recorded while that many windows had been taken. */
  ghost predicate RecordedIn(history: seq<Event>, window: nat, table: Table) {
    exists p :: 0 <= p < |history| && Records(history[p], table) && Takes(history[..p]) == window
  }

  /** dirtyTables and writeGeneration, with every window handed out. */
  class Tracker {
    var dirty: set<Table>
    var writeGeneration: nat
    ghost var history: seq<Event>
    ghost var taken: seq<set<Table>>

    constructor ()
      ensures Valid() && dirty == {} && history == [] && taken == [] && writeGeneration == 0
    {
      dirty, writeGeneration := {}, 0;
      history, taken := [], [];
    }

    /** Every recording lands in exactly one window: the pending one or the one taken next after it. */
    ghost predicate Valid()
      reads this
    {
      && |taken| == Takes(history)
      && (forall t :: t in dirty <==> RecordedIn(history, |taken|, t))
      && (forall w, t :: 0 <= w < |taken| ==> (t in taken[w] <==> RecordedIn(history, w, t)))
    }

    /** recordTableWrite on the pending window; evaluation of a live query does not count. */
    method RecordTableWrite(table: Table, evaluating: bool)
      requires Valid()
      modifies this
      ensures Valid() && history == old(history) + [Record(table)] && taken == old(taken)
      ensures dirty == old(dirty) + {table}
      ensures writeGeneration == old(writeGeneration) + if evaluating then 0 else 1
    {
      HistoryGrows(history, Record(table));
      history := history + [Record(table)];
      dirty := dirty + {table};
      if !evaluating { writeGeneration := writeGeneration + 1; }
    }

    /** publishLiveQueryDirtyTables. */
    method PublishDirtyTables(tables: seq<Table>, evaluating: bool)
      requires Valid()
      modifies this
      ensures Valid() && history == old(history) + [Publish(tables)] && taken == old(taken)
      ensures dirty == old(dirty) + set t | t in tables
      ensures writeGeneration == old(writeGeneration) + if evaluating then 0 else |tables|
    {
      HistoryGrows(history, Publish(tables));
      for i := 0 to |tables|
        invariant taken == old(taken) && history == old(history)
        invariant dirty == old(dirty) + set t | t in tables[..i]
        invariant writeGeneration == old(writeGeneration) + if evaluating then 0 else i
      {
        assert tables[..i + 1] == tables[..i] + [tables[i]];
        dirty := dirty + {tables[i]};
        if !evaluating { writeGeneration := writeGeneration + 1; }
      }
      assert tables[..|tables|] == tables;
      history := history + [Publish(tables)];
    }

    /** takeLiveQueryDirtyTables. */
    method TakeDirtyTables() returns (window: set<Table>)
      requires Valid()
      modifies this
      ensures Valid() && history == old(history) + [Take] && taken == old(taken) + [window]
      ensures window == old(dirty) && dirty == {} && writeGeneration == old(writeGeneration)
    {
      HistoryGrows(history, Take);
      NothingYet(history);
      window := dirty;
      history := history + [Take];
      taken := taken + [window];
      dirty := {};
    }
  }

  lemma {:induction false} TakesGrow(history: seq<Event>, p: nat)
    requires p <= |history|
    ensures Takes(history[..p]) <= Takes(history)
    decreases |history|
  {
    if p < |history| {
      assert history[..p] == history[..|history| - 1][..p];
      TakesGrow(history[..|history| - 1], p);
    } else {
      assert history[..p] == history;
    }
  }

  lemma NothingYet(history: seq<Event>)
    ensures forall w, t :: w == Takes(history) + 1 ==> !RecordedIn(history + [Take], w, t)
  {
    var longer := history + [Take];
    forall t, p | 0 <= p < |longer| && Records(longer[p], t) ensures Takes(longer[..p]) <= Takes(history) {
      assert longer[..p] == history[..p];
      TakesGrow(history, p);
    }
  }

  lemma HistoryGrows(history: seq<Event>, event: Event)
    ensures Takes(history + [event]) == Takes(history) + if event.Take? then 1 else 0
    ensures forall w, t :: RecordedIn(history + [event], w, t) <==> RecordedIn(history, w, t) || (Records(event, t) && w == Takes(history))
  {
    var longer := history + [event];
    assert longer[..|history|] == history;
    forall w, t ensures RecordedIn(longer, w, t) <==> RecordedIn(history, w, t) || (Records(event, t) && w == Takes(history)) {
      forall p | 0 <= p < |history| ensures longer[..p] == history[..p] {}
      if RecordedIn(history, w, t) {
        var p :| 0 <= p < |history| && Records(history[p], t) && Takes(history[..p]) == w;
        assert Records(longer[p], t) && Takes(longer[..p]) == w;
      }
      if Records(event, t) && w == Takes(history) {
        assert Records(longer[|history|], t) && Takes(longer[..|history|]) == w;
      }
    }
  }
}
