/** The quota table of the admission policy (src/admission-rate-limit.ts), across reloads of the
    policy.  The digest of a policy is modelled as the policy itself, so equal digests mean equal
    rules.  Rule ids are the validated ones: they are unique and contain no NUL. */
module AdmissionRateLimit {
  import opened FixedWindow

  datatype Action = Deny | RateLimit(limit: int, windowMs: int)
  datatype Rule = Rule(id: string, enabled: bool, action: Action)

  /** The rules a generation was parsed from; None is the absence of a policy. */
  type Generation = Option<seq<Rule>>

  datatype Digest = Unset | DigestOf(generation: Generation)

  /** The limit and the window of a rule, as one text in the source. */
  datatype Parameters = Parameters(limit: int, windowMs: int)

  const NUL: char := '\0'
  const LONGEST_WINDOW: real := 86_400_000.0

  predicate ValidId(id: string) { NUL !in id }

  predicate ValidRules(rules: seq<Rule>) {
    && (forall i :: 0 <= i < |rules| ==> ValidId(rules[i].id))
    && (forall i, j :: 0 <= i < j < |rules| ==> rules[i].id != rules[j].id)
    && (forall i :: 0 <= i < |rules| && rules[i].action.RateLimit? ==>
          1 <= rules[i].action.limit <= 1_000_000 && 1_000 <= rules[i].action.windowMs <= 86_400_000)
  }

  predicate ValidGeneration(generation: Generation) {
    generation.Some? ==> ValidRules(generation.value)
  }

  function RulesOf(generation: Generation): seq<Rule> {
    if generation.Some? then generation.value else []
  }

  /** The enabled rate-limit rules with their parameters. */
  function ParametersOf(rules: seq<Rule>): map<string, Parameters> {
    if rules == [] then map[]
    else
      var before, last := ParametersOf(rules[..|rules| - 1]), rules[|rules| - 1];
      if last.enabled && last.action.RateLimit? then before[last.id := Parameters(last.action.limit, last.action.windowMs)] else before
  }

  // ---------- the keys of the table ----------

  function KeyFor(id: string, address: string): string { id + [NUL] + address }

  function IndexOfNul(key: string): int {
    if key == "" then -1
    else if key[0] == NUL then 0
    else
      var rest := IndexOfNul(key[1..]);
      if rest < 0 then -1 else rest + 1
  }

  lemma {:induction false} NulIndexInRange(key: string)
    ensures -1 <= IndexOfNul(key) < |key| || key == ""
    ensures -1 <= IndexOfNul(key) <= |key|
  {
    if key != "" { NulIndexInRange(key[1..]); }
  }

  /** The rule a key belongs to: the text before the first NUL. */
  function IdOf(key: string): string {
    NulIndexInRange(key);
    var end := IndexOfNul(key);
    if end >= 0 then key[..end] else if key == "" then "" else key[..|key| - 1]
  }

  lemma {:induction false} IdOfKeyFor(id: string, address: string)
    requires ValidId(id)
    ensures IdOf(KeyFor(id, address)) == id
  {
    NulAfter(id, address);
  }

  lemma {:induction false} NulAfter(id: string, address: string)
    requires ValidId(id)
    ensures IndexOfNul(KeyFor(id, address)) == |id|
  {
    if id != "" {
      assert KeyFor(id, address)[1..] == KeyFor(id[1..], address);
      NulAfter(id[1..], address);
    }
  }

  /** What a reload keeps: the keys of rules whose parameters are the same before and after. */
  predicate KeepsKey(key: string, next: map<string, Parameters>, previous: map<string, Parameters>) {
    IdOf(key) in next && IdOf(key) in previous && next[IdOf(key)] == previous[IdOf(key)]
  }

  function LimitsFor(maxBuckets: nat): Limits { Limits(maxBuckets, LONGEST_WINDOW, true) }

  // ---------- the limiter ----------

  class AdmissionRateLimiter {
    const windows: BoundedFixedWindow<string>
    var digest: Digest
    var parameters: map<string, Parameters>

    constructor (maxBuckets: nat)
      requires maxBuckets >= 1
      ensures windows.buckets == [] && windows.limits == LimitsFor(maxBuckets) && windows.Valid() && fresh(windows)
      ensures digest == Unset && parameters == map[]
    {
      windows := new BoundedFixedWindow(LimitsFor(maxBuckets));
      digest, parameters := Unset, map[];
    }

    /** reconcile: the same digest changes nothing. */
    method Reconcile(generation: Generation)
      requires windows.Valid()
      modifies this, windows
      ensures windows.Valid()
      ensures digest == DigestOf(generation)
      ensures if old(digest) == DigestOf(generation)
              then parameters == old(parameters) && windows.buckets == old(windows.buckets)
              else parameters == ParametersOf(RulesOf(generation))
                   && windows.buckets == Retained(old(windows.buckets), ParametersOf(RulesOf(generation)), old(parameters))
    {
      if digest == DigestOf(generation) { return; }
      var rules := RulesOf(generation);
      var next: map<string, Parameters> := map[];
      for i := 0 to |rules|
        invariant next == ParametersOf(rules[..i])
      {
        assert rules[..i + 1][..i] == rules[..i];
        if rules[i].enabled && rules[i].action.RateLimit? {
          next := next[rules[i].id := Parameters(rules[i].action.limit, rules[i].action.windowMs)];
        }
      }
      assert rules[..|rules|] == rules;
      var previous := parameters;
      windows.Retain(key => KeepsKey(key, next, previous));
      parameters := next;
      digest := DigestOf(generation);
    }

    /** consume: 0 when admitted, otherwise the whole seconds to wait. */
    method Consume(id: string, address: string, limit: int, windowMs: int, now: real) returns (retryAfter: int)
      requires windows.Valid()
      modifies windows
      ensures windows.Valid()
      ensures windows.buckets == Recorded(old(windows.buckets), windows.limits, KeyFor(id, address), windowMs as real, limit + 1, now)
      ensures var counted := Report(NextBucket(Get(old(windows.buckets), KeyFor(id, address)), windowMs as real, limit + 1, now), windowMs as real, now);
              retryAfter == if counted.count <= limit then 0 else counted.remainingSeconds
    {
      var counted := windows.Record(KeyFor(id, address), windowMs as real, limit + 1, now);
      retryAfter := if counted.count <= limit then 0 else counted.remainingSeconds;
    }
  }

  function Retained(t: Table<string>, next: map<string, Parameters>, previous: map<string, Parameters>): Table<string> {
    Kept(t, key => KeepsKey(key, next, previous))
  }

  // ---------- runs: reloads, and consumes by the rules of the active generation ----------

  datatype State = State(table: Table<string>, digest: Digest, parameters: map<string, Parameters>, active: Generation, clock: real)

  datatype Step = Reload(generation: Generation) | Consume(id: string, address: string, at: real)

  ghost predicate Enabled(s: State, step: Step) {
    match step
    case Reload(generation) => ValidGeneration(generation)
    case Consume(id, _, at) => id in ParametersOf(RulesOf(s.active)) && s.clock <= at
  }

  function Next(s: State, step: Step, maxBuckets: nat): State {
    match step
    case Reload(generation) =>
      if s.digest == DigestOf(generation) then s.(active := generation)
      else
        var next := ParametersOf(RulesOf(generation));
        s.(table := Retained(s.table, next, s.parameters), parameters := next, digest := DigestOf(generation), active := generation)
    case Consume(id, address, at) =>
      var active := ParametersOf(RulesOf(s.active));
      if id !in active then s
      else s.(table := Recorded(s.table, LimitsFor(maxBuckets), KeyFor(id, address), active[id].windowMs as real, active[id].limit + 1, at),
              clock := at)
  }

  /** Every bucket belongs to an enabled rate-limit rule of the active generation, with its window. */
  ghost predicate BucketsMatch(table: Table<string>, parameters: map<string, Parameters>) {
    forall i :: 0 <= i < |table| ==>
      IdOf(table[i].key) in parameters && table[i].bucket.windowMs == parameters[IdOf(table[i].key)].windowMs as real
  }

  ghost predicate ValidParameters(parameters: map<string, Parameters>) {
    forall id :: id in parameters ==> ValidId(id) && parameters[id].limit >= 1 && 1_000 <= parameters[id].windowMs <= 86_400_000
  }

  ghost predicate Inv(s: State, maxBuckets: nat) {
    && (s.digest.Unset? ==> s.active.None? && s.parameters == map[])
    && (s.digest.DigestOf? ==> s.digest.generation == s.active)
    && s.parameters == ParametersOf(RulesOf(s.active))
    && ValidParameters(s.parameters)
    && Ordered(s.table, LimitsFor(maxBuckets), s.clock)
    && BucketsMatch(s.table, s.parameters)
  }

  lemma {:induction false} ParametersValid(rules: seq<Rule>)
    requires ValidRules(rules)
    ensures ValidParameters(ParametersOf(rules))
  {
    if rules != [] {
      ParametersValid(rules[..|rules| - 1]);
    }
  }

  lemma SubTableMatches(small: Table<string>, large: Table<string>, parameters: map<string, Parameters>)
    requires SubTable(small, large) && BucketsMatch(large, parameters)
    ensures BucketsMatch(small, parameters)
  {
    forall i: nat | i < |small|
      ensures IdOf(small[i].key) in parameters && small[i].bucket.windowMs == parameters[IdOf(small[i].key)].windowMs as real
    {
      var a, b := SubTableEntries(small, large, i, i);
    }
  }

  lemma RetainedMatches(t: Table<string>, next: map<string, Parameters>, previous: map<string, Parameters>)
    requires Distinct(t) && BucketsMatch(t, previous)
    ensures BucketsMatch(Retained(t, next, previous), next)
  {
    var keep := (key: string) => KeepsKey(key, next, previous);
    KeptIsSub(t, keep);
    forall i: nat | i < |Kept(t, keep)|
      ensures IdOf(Kept(t, keep)[i].key) in next
      ensures Kept(t, keep)[i].bucket.windowMs == next[IdOf(Kept(t, keep)[i].key)].windowMs as real
    {
      var a, b := SubTableEntries(Kept(t, keep), t, i, i);
      FoundAt(Kept(t, keep), i);
      assert keep(Kept(t, keep)[i].key);
    }
  }

  lemma RecordedMatches(t: Table<string>, limits: Limits, id: string, address: string, parameters: map<string, Parameters>, last: real, now: real)
    requires Ordered(t, limits, last) && last <= now && BucketsMatch(t, parameters) && ValidParameters(parameters) && id in parameters
    ensures BucketsMatch(Recorded(t, limits, KeyFor(id, address), parameters[id].windowMs as real, parameters[id].limit + 1, now), parameters)
  {
    var key, windowMs, ceiling := KeyFor(id, address), parameters[id].windowMs as real, parameters[id].limit + 1;
    IdOfKeyFor(id, address);
    var appended := Appended(t, key, windowMs, ceiling, now);
    assert BucketsMatch(appended, parameters) by {
      WithoutIsSub(t, key);
      SubTableMatches(Without(t, key), t, parameters);
      if Get(t, key).Some? { var i := GetIsEntry(t, key); }
    }
    AppendedOrdered(t, key, windowMs, ceiling, last, now);
    SweptGet(appended, limits, now);
    var swept := Swept(appended, limits, now);
    SubTableMatches(swept, appended, parameters);
    if |swept| > limits.maxBuckets {
      SubTableKeeps(swept, appended, now);
      SuffixIsSub(swept, |swept| - limits.maxBuckets);
      SubTableMatches(swept[|swept| - limits.maxBuckets..], swept, parameters);
    }
  }

  lemma NextKeeps(s: State, step: Step, maxBuckets: nat)
    requires Inv(s, maxBuckets) && Enabled(s, step)
    ensures Inv(Next(s, step, maxBuckets), maxBuckets)
  {
    match step
    case Reload(generation) =>
      if s.digest != DigestOf(generation) {
        var next := ParametersOf(RulesOf(generation));
        ParametersValid(RulesOf(generation));
        RetainedMatches(s.table, next, s.parameters);
        KeptIsSub(s.table, key => KeepsKey(key, next, s.parameters));
        SubTableKeeps(Retained(s.table, next, s.parameters), s.table, s.clock);
      }
    case Consume(id, address, at) =>
      RecordedMatches(s.table, LimitsFor(maxBuckets), id, address, s.parameters, s.clock, at);
      RecordedOrdered(s.table, LimitsFor(maxBuckets), KeyFor(id, address), s.parameters[id].windowMs as real, s.parameters[id].limit + 1, s.clock, at);
  }

  ghost predicate Runs(s: State, steps: seq<Step>, maxBuckets: nat)
    decreases |steps|
  {
    steps == [] || (Enabled(s, steps[0]) && Runs(Next(s, steps[0], maxBuckets), steps[1..], maxBuckets))
  }

  function Final(s: State, steps: seq<Step>, maxBuckets: nat): State
    decreases |steps|
  {
    if steps == [] then s else Final(Next(s, steps[0], maxBuckets), steps[1..], maxBuckets)
  }

  ghost predicate Initial(s: State) {
    s.table == [] && s.digest.Unset? && s.parameters == map[] && s.active.None?
  }

  lemma {:induction false} RunKeeps(s: State, steps: seq<Step>, maxBuckets: nat)
    requires Inv(s, maxBuckets) && Runs(s, steps, maxBuckets)
    ensures Inv(Final(s, steps, maxBuckets), maxBuckets)
    decreases |steps|
  {
    if steps != [] {
      NextKeeps(s, steps[0], maxBuckets);
      RunKeeps(Next(s, steps[0], maxBuckets), steps[1..], maxBuckets);
    }
  }

  /** After any reloads and consumes, every bucket belongs to an enabled rate-limit rule of the
      active generation and carries that rule's window, and the table is within its bound. */
  lemma BucketsBelongToActiveRules(s: State, steps: seq<Step>, maxBuckets: nat)
    requires Initial(s) && Runs(s, steps, maxBuckets)
    ensures BucketsMatch(Final(s, steps, maxBuckets).table, ParametersOf(RulesOf(Final(s, steps, maxBuckets).active)))
    ensures |Final(s, steps, maxBuckets).table| <= maxBuckets
  {
    RunKeeps(s, steps, maxBuckets);
  }

  /** A reload that changes or removes a rule leaves nothing of its counts behind: the next consume
      of any of its addresses is the first of a new window. */
  lemma ChangedRulesStartOver(s: State, generation: Generation, id: string, address: string, windowMs: real, ceiling: int, now: real, maxBuckets: nat)
    requires Inv(s, maxBuckets) && ValidGeneration(generation) && ValidId(id)
    requires id in s.parameters ==> id !in ParametersOf(RulesOf(generation)) || ParametersOf(RulesOf(generation))[id] != s.parameters[id]
    ensures Get(Next(s, Reload(generation), maxBuckets).table, KeyFor(id, address)).None?
    ensures NextBucket(Get(Next(s, Reload(generation), maxBuckets).table, KeyFor(id, address)), windowMs, ceiling, now) == Bucket(1, now, now, windowMs)
  {
    IdOfKeyFor(id, address);
    if s.digest == DigestOf(generation) {
      if Get(s.table, KeyFor(id, address)).Some? { var i := GetIsEntry(s.table, KeyFor(id, address)); }
    } else {
      var next := ParametersOf(RulesOf(generation));
      KeptIsSub(s.table, key => KeepsKey(key, next, s.parameters));
    }
  }

  // ---------- a rule whose parameters never change ----------

  /** The consumes of a run, without its reloads. */
  function UsesOf(steps: seq<Step>): seq<Use<string>> {
    if steps == [] then []
    else if steps[0].Consume? then [Use(KeyFor(steps[0].id, steps[0].address), steps[0].at)] + UsesOf(steps[1..])
    else UsesOf(steps[1..])
  }

  function MarkFrom(ideal: Option<Mark>, uses: seq<Use<string>>, key: string, windowMs: real): Option<Mark>
    decreases |uses|
  {
    if uses == [] then ideal
    else MarkFrom(if uses[0].key == key then Some(NextMark(ideal, windowMs, uses[0].at)) else ideal, uses[1..], key, windowMs)
  }

  /** Every reload of the run gives the rule these parameters, and no eviction for lack of room
      hits the key. */
  ghost predicate Unchanged(s: State, steps: seq<Step>, key: string, p: Parameters, maxBuckets: nat)
    decreases |steps|
  {
    steps == [] ||
    ((match steps[0]
      case Reload(generation) => IdOf(key) in ParametersOf(RulesOf(generation)) && ParametersOf(RulesOf(generation))[IdOf(key)] == p
      case Consume(id, address, at) =>
        id in s.parameters ==>
          Spared(s.table, LimitsFor(maxBuckets), KeyFor(id, address), s.parameters[id].windowMs as real, s.parameters[id].limit + 1, at, key))
     && Unchanged(Next(s, steps[0], maxBuckets), steps[1..], key, p, maxBuckets))
  }

  lemma ReloadTracks(s: State, generation: Generation, key: string, p: Parameters, ideal: Option<Mark>, maxBuckets: nat)
    requires Inv(s, maxBuckets) && IdOf(key) in s.parameters && s.parameters[IdOf(key)] == p
    requires IdOf(key) in ParametersOf(RulesOf(generation)) && ParametersOf(RulesOf(generation))[IdOf(key)] == p
    requires Tracks(s.table, key, ideal, p.windowMs as real, p.limit + 1, s.clock)
    ensures Tracks(Next(s, Reload(generation), maxBuckets).table, key, ideal, p.windowMs as real, p.limit + 1, s.clock)
  {
    if s.digest != DigestOf(generation) {
      var next := ParametersOf(RulesOf(generation));
      KeptIsSub(s.table, k => KeepsKey(k, next, s.parameters));
    }
  }

  lemma ConsumeTracks(s: State, step: Step, key: string, p: Parameters, ideal: Option<Mark>, maxBuckets: nat)
    requires Inv(s, maxBuckets) && step.Consume? && Enabled(s, step) && IdOf(key) in s.parameters && s.parameters[IdOf(key)] == p
    requires Tracks(s.table, key, ideal, p.windowMs as real, p.limit + 1, s.clock)
    requires Spared(s.table, LimitsFor(maxBuckets), KeyFor(step.id, step.address), s.parameters[step.id].windowMs as real, s.parameters[step.id].limit + 1, step.at, key)
    ensures Tracks(Next(s, step, maxBuckets).table, key,
                   if KeyFor(step.id, step.address) == key then Some(NextMark(ideal, p.windowMs as real, step.at)) else ideal,
                   p.windowMs as real, p.limit + 1, step.at)
  {
    hide Recorded, Ordered, Tracks, Spared;
    var own, q := KeyFor(step.id, step.address), s.parameters[step.id];
    IdOfKeyFor(step.id, step.address);
    assert Ordered(s.table, LimitsFor(maxBuckets), s.clock);
    if own == key {
      TracksItself(s.table, LimitsFor(maxBuckets), key, p.windowMs as real, p.limit + 1, ideal, s.clock, step.at);
    } else {
      TracksBesides(s.table, LimitsFor(maxBuckets), key, p.windowMs as real, p.limit + 1, ideal, own, q.windowMs as real, q.limit + 1, s.clock, step.at);
    }
  }

  /** While the parameters of a rule stay the same, its counts are those of an unbounded table that
      sees the consumes of the run and none of its reloads. */
  lemma {:induction false} UnchangedRulesKeepCounting(s: State, steps: seq<Step>, key: string, p: Parameters, ideal: Option<Mark>, maxBuckets: nat)
    requires Inv(s, maxBuckets) && Runs(s, steps, maxBuckets) && Unchanged(s, steps, key, p, maxBuckets)
    requires IdOf(key) in s.parameters && s.parameters[IdOf(key)] == p
    requires Tracks(s.table, key, ideal, p.windowMs as real, p.limit + 1, s.clock)
    ensures var n := Final(s, steps, maxBuckets);
            Tracks(n.table, key, MarkFrom(ideal, UsesOf(steps), key, p.windowMs as real), p.windowMs as real, p.limit + 1, n.clock)
    decreases |steps|
  {
    if steps != [] {
      hide Tracks, Inv, Enabled;
      var n := Next(s, steps[0], maxBuckets);
      NextKeeps(s, steps[0], maxBuckets);
      ActiveParameters(s, steps[0], key, p, maxBuckets);
      match steps[0]
      case Reload(generation) =>
        ReloadTracks(s, generation, key, p, ideal, maxBuckets);
        UnchangedRulesKeepCounting(n, steps[1..], key, p, ideal, maxBuckets);
      case Consume(id, address, at) =>
        ConsumeTracks(s, steps[0], key, p, ideal, maxBuckets);
        var next := if KeyFor(id, address) == key then Some(NextMark(ideal, p.windowMs as real, at)) else ideal;
        UnchangedRulesKeepCounting(n, steps[1..], key, p, next, maxBuckets);
        assert UsesOf(steps)[1..] == UsesOf(steps[1..]);
    }
  }

  lemma ActiveParameters(s: State, step: Step, key: string, p: Parameters, maxBuckets: nat)
    requires Inv(s, maxBuckets) && Enabled(s, step) && IdOf(key) in s.parameters && s.parameters[IdOf(key)] == p
    requires step.Reload? ==> IdOf(key) in ParametersOf(RulesOf(step.generation)) && ParametersOf(RulesOf(step.generation))[IdOf(key)] == p
    ensures var n := Next(s, step, maxBuckets); IdOf(key) in n.parameters && n.parameters[IdOf(key)] == p
    ensures step.Consume? ==> step.id in s.parameters && Next(s, step, maxBuckets).clock == step.at
    ensures step.Reload? ==> Next(s, step, maxBuckets).clock == s.clock
  {
  }
}
