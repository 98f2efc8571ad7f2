/** Ordered rule matching at the HTTP boundary (pathnameMatches and matchHttpAdmissionRule in
    src/admission-policy.ts).  A condition whose facts are missing is indeterminate; the loop is
    proved to answer exactly when every way of resolving such conditions gives the same answer. */
module RuleMatching {
  import opened Strings
  import opened ClientNetwork

  datatype Option<T> = None | Some(value: T)

  datatype Condition =
    | Method(value: string)
    | Exact(pathname: string)
    | Prefix(pathname: string)
    | Header(name: string, expected: Option<string>)
    | QueryKey(name: string)
    | InNetwork(network: string)

  datatype Action = Deny | RateLimit(limit: nat, windowMs: nat)
  datatype Rule = Rule(id: string, enabled: bool, conditions: seq<Condition>, action: Action)

  /** The request after its method, pathname, query and header fields were checked and normalized. */
  datatype Request = Request(
    verb: string,
    pathname: string,
    queryKeys: set<string>,
    headers: map<string, seq<string>>,
    trustedAddress: Option<string>
  )

  datatype Truth = True | False | Unknown

  // ---------- header fields ----------

  /** Fields in the order received: every name gets all its values, so duplicates stay visible. */
  function Collected(fields: seq<(string, string)>): map<string, seq<string>> {
    if fields == [] then map[]
    else
      var (name, value) := fields[|fields| - 1];
      var before := Collected(fields[..|fields| - 1]);
      before[name := (if name in before then before[name] else []) + [value]]
  }

  lemma CollectedStep(front: seq<(string, string)>, last: (string, string))
    ensures var before := Collected(front);
            Collected(front + [last]) == before[last.0 := (if last.0 in before then before[last.0] else []) + [last.1]]
  {
    assert (front + [last])[..|front|] == front;
  }

  method CollectHeaders(fields: seq<(string, string)>) returns (headers: map<string, seq<string>>)
    ensures headers == Collected(fields)
  {
    headers := map[];
    for i := 0 to |fields|
      invariant headers == Collected(fields[..i])
    {
      var (name, value) := fields[i];
      CollectedStep(fields[..i], fields[i]);
      assert fields[..i + 1] == fields[..i] + [fields[i]];
      if name in headers {
        headers := headers[name := headers[name] + [value]];
      } else {
        assert [] + [value] == [value];
        headers := headers[name := [value]];
      }
    }
    assert fields[..|fields|] == fields;
  }

  function ValuesOf(fields: seq<(string, string)>, name: string): seq<string> {
    if fields == [] then []
    else (if fields[0].0 == name then [fields[0].1] else []) + ValuesOf(fields[1..], name)
  }

  lemma {:induction false} ValuesOfAppend(fields: seq<(string, string)>, last: (string, string), name: string)
    ensures ValuesOf(fields + [last], name) == ValuesOf(fields, name) + if last.0 == name then [last.1] else []
  {
    if fields == [] {
      assert (fields + [last])[1..] == [];
    } else {
      ValuesOfAppend(fields[1..], last, name);
      assert (fields + [last])[1..] == fields[1..] + [last];
    }
  }

  /** A name has exactly the values of its own fields, in order; a name without a field is absent. */
  lemma {:induction false} CollectedIsValues(fields: seq<(string, string)>, name: string)
    ensures name in Collected(fields) <==> ValuesOf(fields, name) != []
    ensures name in Collected(fields) ==> Collected(fields)[name] == ValuesOf(fields, name)
  {
    if fields != [] {
      var front := fields[..|fields| - 1];
      CollectedIsValues(front, name);
      ValuesOfAppend(front, fields[|fields| - 1], name);
      assert front + [fields[|fields| - 1]] == fields;
    }
  }

  // ---------- pathnames ----------

  predicate EndsWithSlash(text: string) { text != "" && text[|text| - 1] == '/' }

  predicate PathnameMatches(pathname: string, prefix: string) {
    pathname == prefix || (if EndsWithSlash(prefix) then prefix else prefix + "/") <= pathname
  }

  /** Text begins with a prefix and a slash exactly when the prefix has its first segments and
      there are more. */
  lemma SegmentsBegin(pathname: string, prefix: string)
    ensures prefix + "/" <= pathname <==> Split(prefix, '/') < Split(pathname, '/')
  {
    if prefix + "/" <= pathname {
      var rest := pathname[|prefix| + 1..];
      assert pathname == prefix + "/" + rest;
      SplitAppend(prefix, rest, '/');
    }
    if Split(prefix, '/') < Split(pathname, '/') {
      var rest := Split(pathname, '/')[|Split(prefix, '/')|..];
      assert Split(pathname, '/') == Split(prefix, '/') + rest;
      JoinBoth(Split(prefix, '/'), rest, '/');
      JoinOfSplit(prefix, '/');
      JoinOfSplit(pathname, '/');
    }
  }

  /** A prefix matches by whole segments.  One that ends in a slash wants a further segment. */
  lemma PrefixIsBySegments(pathname: string, prefix: string)
    ensures PathnameMatches(pathname, prefix) <==>
      if EndsWithSlash(prefix) then Split(prefix[..|prefix| - 1], '/') < Split(pathname, '/')
      else Split(prefix, '/') <= Split(pathname, '/')
  {
    hide Split, Join;
    if EndsWithSlash(prefix) {
      assert prefix == prefix[..|prefix| - 1] + "/";
      SegmentsBegin(pathname, prefix[..|prefix| - 1]);
    } else {
      SegmentsBegin(pathname, prefix);
      if Split(prefix, '/') == Split(pathname, '/') {
        JoinOfSplit(prefix, '/');
        JoinOfSplit(pathname, '/');
      }
    }
  }

  // ---------- conditions ----------

  function Evaluated(condition: Condition, request: Request): Truth {
    match condition
    case Method(value) => if request.verb == value then True else False
    case Exact(pathname) => if request.pathname == pathname then True else False
    case Prefix(pathname) => if PathnameMatches(request.pathname, pathname) then True else False
    case Header(name, expected) =>
      if name !in request.headers then False
      else if expected.None? then True
      else if |request.headers[name]| != 1 then Unknown
      else if request.headers[name][0] == expected.value then True
      else False
    case QueryKey(name) => if name in request.queryKeys then True else False
    case InNetwork(network) =>
      if request.trustedAddress.None? || request.trustedAddress.value == "" then Unknown
      else if ClientAddressMatches(request.trustedAddress.value, network) then True
      else False
  }

  // ---------- what conditions mean ----------

  /** Some pieces of the pathname, cut at every slash: all of a prefix, or all before its last slash
      and at least one more. */
  ghost predicate Under(pathname: string, prefix: string) {
    if EndsWithSlash(prefix) then Split(prefix[..|prefix| - 1], '/') < Split(pathname, '/')
    else Split(prefix, '/') <= Split(pathname, '/')
  }

  /** Whether the fields of a request, in the order received, fulfil a condition. */
  ghost predicate Fulfils(request: Request, fields: seq<(string, string)>, condition: Condition) {
    match condition
    case Method(value) => request.verb == value
    case Exact(pathname) => request.pathname == pathname
    case Prefix(prefix) => Under(request.pathname, prefix)
    case Header(name, None) => exists i :: 0 <= i < |fields| && fields[i].0 == name
    case Header(name, Some(value)) => ValuesOf(fields, name) == [value]
    case QueryKey(name) => name in request.queryKeys
    case InNetwork(network) => Trusted(request) && Within(request.trustedAddress.value, network)
  }

  /** A value is asked for and the name has several fields, or an address and none is trusted. */
  ghost predicate LeavesOpen(request: Request, fields: seq<(string, string)>, condition: Condition) {
    match condition
    case Header(name, Some(_)) => |ValuesOf(fields, name)| >= 2
    case InNetwork(_) => !Trusted(request)
    case _ => false
  }

  predicate Trusted(request: Request) { request.trustedAddress.Some? && request.trustedAddress.value != "" }

  lemma {:induction false} SomeValue(fields: seq<(string, string)>, name: string)
    ensures ValuesOf(fields, name) != [] <==> exists i :: 0 <= i < |fields| && fields[i].0 == name
  {
    if fields != [] {
      SomeValue(fields[1..], name);
      if i :| 0 <= i < |fields[1..]| && fields[1..][i].0 == name { assert fields[i + 1].0 == name; }
      if i :| 0 <= i < |fields| && fields[i].0 == name && i > 0 { assert fields[1..][i - 1].0 == name; }
    }
  }

  /** A condition is true exactly when the request fulfils it, and in doubt exactly when the request
      leaves it open. */
  lemma ConditionMeans(condition: Condition, request: Request, fields: seq<(string, string)>)
    requires request.headers == Collected(fields)
    ensures Evaluated(condition, request) == True <==> Fulfils(request, fields, condition)
    ensures Evaluated(condition, request) == Unknown <==> LeavesOpen(request, fields, condition)
  {
    hide Collected, ValuesOf, ClientAddressMatches, Within, Split;
    match condition
    case Header(name, _) =>
      CollectedIsValues(fields, name);
      SomeValue(fields, name);
    case Prefix(prefix) => PrefixIsBySegments(request.pathname, prefix);
    case InNetwork(network) =>
      if Trusted(request) { MatchIsPrefix(request.trustedAddress.value, network); }
    case _ =>
  }

  /** An enabled rule whose conditions are all fulfilled. */
  ghost predicate Applies(rule: Rule, request: Request, fields: seq<(string, string)>) {
    rule.enabled && forall i :: 0 <= i < |rule.conditions| ==> Fulfils(request, fields, rule.conditions[i])
  }

  /** A disabled rule, or one with a condition that is neither fulfilled nor left open. */
  ghost predicate RuledOut(rule: Rule, request: Request, fields: seq<(string, string)>) {
    !rule.enabled || exists i :: 0 <= i < |rule.conditions| && Fails(request, fields, rule.conditions[i])
  }

  ghost predicate Fails(request: Request, fields: seq<(string, string)>, condition: Condition) {
    !Fulfils(request, fields, condition) && !LeavesOpen(request, fields, condition)
  }

  /** The first rule that is not ruled out decides: it applies, or the answer is an error. */
  ghost predicate Answers(rules: seq<Rule>, request: Request, fields: seq<(string, string)>, outcome: Outcome) {
    match outcome
    case Matched(None) => forall k :: 0 <= k < |rules| ==> RuledOut(rules[k], request, fields)
    case Matched(Some(i)) =>
      i < |rules| && Applies(rules[i], request, fields) && forall k :: 0 <= k < i ==> RuledOut(rules[k], request, fields)
    case Indeterminate =>
      exists i :: 0 <= i < |rules| && !RuledOut(rules[i], request, fields) && !Applies(rules[i], request, fields)
                  && forall k :: 0 <= k < i ==> RuledOut(rules[k], request, fields)
  }

  lemma RuleMeans(rule: Rule, request: Request, fields: seq<(string, string)>)
    requires request.headers == Collected(fields)
    ensures RefutedBy(rule, request) <==> RuledOut(rule, request, fields)
    ensures !RefutedBy(rule, request) && !Doubtful(rule, request) <==> Applies(rule, request, fields)
  {
    hide Evaluated, Fulfils, LeavesOpen, Collected;
    forall i | 0 <= i < |rule.conditions|
      ensures Evaluated(rule.conditions[i], request) == True <==> Fulfils(request, fields, rule.conditions[i])
      ensures Evaluated(rule.conditions[i], request) == Unknown <==> LeavesOpen(request, fields, rule.conditions[i])
      ensures Evaluated(rule.conditions[i], request) == False <==> Fails(request, fields, rule.conditions[i])
    {
      ConditionMeans(rule.conditions[i], request, fields);
    }
  }

  lemma {:induction false} DecidedMeans(rules: seq<Rule>, request: Request, fields: seq<(string, string)>)
    requires request.headers == Collected(fields)
    ensures Answers(rules, request, fields, Decided(rules, request))
  {
    hide RefutedBy, Doubtful, Applies, RuledOut, Collected;
    if rules != [] {
      RuleMeans(rules[0], request, fields);
      DecidedMeans(rules[1..], request, fields);
      if RefutedBy(rules[0], request) { LaterAnswers(rules, request, fields, Decided(rules[1..], request)); }
    }
  }

  lemma LaterAnswers(rules: seq<Rule>, request: Request, fields: seq<(string, string)>, outcome: Outcome)
    requires rules != [] && RuledOut(rules[0], request, fields) && Answers(rules[1..], request, fields, outcome)
    ensures Answers(rules, request, fields, Shifted(outcome, 1))
  {
    hide Applies, RuledOut;
    var rest := rules[1..];
    forall k | 0 < k < |rules| ensures rules[k] == rest[k - 1] { }
    if outcome.Indeterminate? {
      var i :| 0 <= i < |rest| && !RuledOut(rest[i], request, fields) && !Applies(rest[i], request, fields)
               && forall k :: 0 <= k < i ==> RuledOut(rest[k], request, fields);
      assert !RuledOut(rules[i + 1], request, fields);
    }
  }

  // ---------- two-valued matching ----------

  /** A way of deciding every condition. */
  type Resolution = Condition -> bool

  /** It agrees with what is known. */
  ghost predicate Resolves(resolution: Resolution, request: Request) {
    forall c: Condition :: Evaluated(c, request) != Unknown ==> (resolution(c) <==> Evaluated(c, request) == True)
  }

  predicate Holds(rule: Rule, resolution: Resolution) {
    rule.enabled && forall i :: 0 <= i < |rule.conditions| ==> resolution(rule.conditions[i])
  }

  /** Plain first match: the index of the first rule that holds. */
  function FirstMatch(rules: seq<Rule>, resolution: Resolution): Option<nat> {
    if rules == [] then None
    else if Holds(rules[0], resolution) then Some(0)
    else
      match FirstMatch(rules[1..], resolution)
      case None => None
      case Some(i) => Some(i + 1)
  }

  // ---------- the loop ----------

  datatype Outcome = Matched(index: Option<nat>) | Indeterminate

  predicate RefutedBy(rule: Rule, request: Request) {
    !rule.enabled || exists i :: 0 <= i < |rule.conditions| && Evaluated(rule.conditions[i], request) == False
  }

  predicate Doubtful(rule: Rule, request: Request) {
    exists i :: 0 <= i < |rule.conditions| && Evaluated(rule.conditions[i], request) == Unknown
  }

  function Decided(rules: seq<Rule>, request: Request): Outcome {
    if rules == [] then Matched(None)
    else if RefutedBy(rules[0], request) then
      match Decided(rules[1..], request)
      case Matched(Some(i)) => Matched(Some(i + 1))
      case other => other
    else if Doubtful(rules[0], request) then Indeterminate
    else Matched(Some(0))
  }

  method EvaluateRule(rule: Rule, request: Request) returns (matches: bool, indeterminate: bool)
    requires rule.enabled
    ensures matches <==> !RefutedBy(rule, request)
    ensures indeterminate <==> Doubtful(rule, request)
    ensures forall fields :: request.headers == Collected(fields) ==>
              (matches <==> !RuledOut(rule, request, fields)) && (matches && !indeterminate <==> Applies(rule, request, fields))
  {
    hide Evaluated, RuledOut, Applies, Collected;
    forall fields | request.headers == Collected(fields)
      ensures RefutedBy(rule, request) <==> RuledOut(rule, request, fields)
      ensures !RefutedBy(rule, request) && !Doubtful(rule, request) <==> Applies(rule, request, fields)
    {
      RuleMeans(rule, request, fields);
    }
    matches, indeterminate := true, false;
    for i := 0 to |rule.conditions|
      invariant matches <==> forall k :: 0 <= k < i ==> Evaluated(rule.conditions[k], request) != False
      invariant indeterminate <==> exists k :: 0 <= k < i && Evaluated(rule.conditions[k], request) == Unknown
    {
      match Evaluated(rule.conditions[i], request) {
        case False => matches := false;
        case Unknown => indeterminate := true;
        case True =>
      }
    }
  }

  /** matchHttpAdmissionRule on a checked request; the index stands for the rule. */
  method MatchRule(rules: seq<Rule>, request: Request) returns (outcome: Outcome)
    ensures outcome == Decided(rules, request)
    ensures forall fields :: request.headers == Collected(fields) ==> Answers(rules, request, fields, outcome)
  {
    forall fields | request.headers == Collected(fields) ensures Answers(rules, request, fields, Decided(rules, request)) {
      DecidedMeans(rules, request, fields);
    }
    for i := 0 to |rules|
      invariant Decided(rules, request) == Shifted(Decided(rules[i..], request), i)
    {
      assert rules[i..][1..] == rules[i + 1..];
      if !rules[i].enabled { continue; }
      var matches, indeterminate := EvaluateRule(rules[i], request);
      if !matches { continue; }
      if indeterminate { return Indeterminate; }
      return Matched(Some(i));
    }
    return Matched(None);
  }

  function Shifted(outcome: Outcome, offset: nat): Outcome {
    match outcome
    case Matched(Some(i)) => Matched(Some(i + offset))
    case other => other
  }

  // ---------- the loop answers when all resolutions agree ----------

  /** The resolution that takes every condition in doubt one way. */
  ghost function Uniform(request: Request, doubt: bool): (resolution: Resolution)
    ensures Resolves(resolution, request)
  {
    (c: Condition) => if Evaluated(c, request) == Unknown then doubt else Evaluated(c, request) == True
  }

  lemma RefutedNeverHolds(rule: Rule, request: Request, resolution: Resolution)
    requires Resolves(resolution, request) && RefutedBy(rule, request)
    ensures !Holds(rule, resolution)
  {
  }

  lemma SureAlwaysHolds(rule: Rule, request: Request, resolution: Resolution)
    requires Resolves(resolution, request) && !RefutedBy(rule, request) && !Doubtful(rule, request)
    ensures Holds(rule, resolution)
  {
  }

  lemma {:induction false} AnswerIsEveryAnswer(rules: seq<Rule>, request: Request, resolution: Resolution)
    requires Resolves(resolution, request) && Decided(rules, request).Matched?
    ensures FirstMatch(rules, resolution) == Decided(rules, request).index
  {
    if rules != [] {
      if RefutedBy(rules[0], request) {
        RefutedNeverHolds(rules[0], request, resolution);
        AnswerIsEveryAnswer(rules[1..], request, resolution);
      } else {
        SureAlwaysHolds(rules[0], request, resolution);
      }
    }
  }

  /** Taking every doubt as true and every doubt as false then gives different answers. */
  lemma {:induction false} DoubtDisagrees(rules: seq<Rule>, request: Request)
    requires Decided(rules, request).Indeterminate?
    ensures FirstMatch(rules, Uniform(request, true)) != FirstMatch(rules, Uniform(request, false))
    ensures FirstMatch(rules, Uniform(request, true)).Some?
  {
    var yes, no := Uniform(request, true), Uniform(request, false);
    if RefutedBy(rules[0], request) {
      RefutedNeverHolds(rules[0], request, yes);
      RefutedNeverHolds(rules[0], request, no);
      DoubtDisagrees(rules[1..], request);
    } else {
      assert Holds(rules[0], yes);
      var i :| 0 <= i < |rules[0].conditions| && Evaluated(rules[0].conditions[i], request) == Unknown;
      assert !no(rules[0].conditions[i]);
      assert !Holds(rules[0], no);
    }
  }

  /** A rule, or no rule, is the outcome exactly when every resolution gives it. */
  lemma MatchedExactlyWhenAllAgree(rules: seq<Rule>, request: Request, index: Option<nat>)
    ensures Decided(rules, request) == Matched(index) <==> EveryReadingGives(rules, request, index)
  {
    hide Decided, FirstMatch, Resolves, Uniform, EveryReadingGives;
    if Decided(rules, request).Matched? {
      DecidedIsGiven(rules, request);
      OneAnswer(rules, request, Decided(rules, request).index, index);
    } else if EveryReadingGives(rules, request, index) {
      DoubtDisagrees(rules, request);
      ReadingGives(rules, request, index, Uniform(request, true));
      ReadingGives(rules, request, index, Uniform(request, false));
    }
  }

  /** Plain first match gives this answer whichever way the indeterminate conditions are resolved. */
  ghost predicate EveryReadingGives(rules: seq<Rule>, request: Request, index: Option<nat>) {
    forall resolution {:trigger FirstMatch(rules, resolution)} :: Resolves(resolution, request) ==> FirstMatch(rules, resolution) == index
  }

  lemma ReadingGives(rules: seq<Rule>, request: Request, index: Option<nat>, resolution: Resolution)
    requires EveryReadingGives(rules, request, index) && Resolves(resolution, request)
    ensures FirstMatch(rules, resolution) == index
  {
    hide FirstMatch, Resolves;
  }

  lemma DecidedIsGiven(rules: seq<Rule>, request: Request)
    requires Decided(rules, request).Matched?
    ensures EveryReadingGives(rules, request, Decided(rules, request).index)
  {
    hide Decided, FirstMatch, Resolves;
    forall resolution | Resolves(resolution, request) ensures FirstMatch(rules, resolution) == Decided(rules, request).index {
      AnswerIsEveryAnswer(rules, request, resolution);
    }
  }

  lemma OneAnswer(rules: seq<Rule>, request: Request, index: Option<nat>, other: Option<nat>)
    requires EveryReadingGives(rules, request, index)
    ensures EveryReadingGives(rules, request, other) <==> other == index
  {
    hide FirstMatch, Resolves, Uniform, EveryReadingGives;
    var yes := Uniform(request, true);
    ReadingGives(rules, request, index, yes);
    if EveryReadingGives(rules, request, other) { ReadingGives(rules, request, other, yes); }
  }

  /** The match throws exactly when two resolutions disagree. */
  lemma ThrowsExactlyWhenTwoDisagree(rules: seq<Rule>, request: Request)
    ensures Decided(rules, request).Indeterminate? <==>
      exists a, b {:trigger FirstMatch(rules, a), FirstMatch(rules, b)} ::
        Resolves(a, request) && Resolves(b, request) && FirstMatch(rules, a) != FirstMatch(rules, b)
  {
    if Decided(rules, request).Indeterminate? {
      DoubtDisagrees(rules, request);
      assert FirstMatch(rules, Uniform(request, true)) != FirstMatch(rules, Uniform(request, false));
    } else {
      forall a, b | Resolves(a, request) && Resolves(b, request) ensures FirstMatch(rules, a) == FirstMatch(rules, b) {
        AnswerIsEveryAnswer(rules, request, a);
        AnswerIsEveryAnswer(rules, request, b);
      }
    }
  }
}
