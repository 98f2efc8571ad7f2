/** The rewrite keeps the meaning of a module: with the fresh helper bound to the module's require,
    the rewritten module evaluates to the same values, requires the same modules in the same order,
    and fails or runs out of fuel where the original does. */
module RequireMeaning {
  import opened ModuleSyntax
  import opened ModuleMeaning

  /** Where the module's require and the helper live. */
  const REQUIRE_AT: nat := 0
  const HELPER_AT: nat := 1

  // ---------- corresponding values ----------

  /** A declaration binds the name here: it does not name the module's require. */
  predicate Rebound(env: Env) { !(REQUIRE in env && env[REQUIRE] == REQUIRE_AT) }

  function WithHelper(env: Env, helper: string): Env { env[helper := HELPER_AT] }

  /** The value after the rewrite: closures run rewritten code and know the helper. */
  function Rewritten(v: Value, helper: string): Value {
    match v
    case Exports(specifier) => Exports(Rewritten(specifier, helper))
    case Closure(params, body, env) =>
      Closure(RewriteParams(params, BoundInParams(params, Rebound(env)), helper),
              RewriteStmts(body, BoundInBody(params, body, Rebound(env)), helper), WithHelper(env, helper))
    case Fields(pairs) => Fields(RewrittenPairs(pairs, helper))
    case _ => v
  }

  function RewrittenPairs(pairs: Pairs, helper: string): Pairs {
    match pairs
    case NoPairs => NoPairs
    case Pair(key, value, rest) => Pair(key, Rewritten(value, helper), RewrittenPairs(rest, helper))
  }

  function RewrittenAll(values: seq<Value>, helper: string): (r: seq<Value>)
    ensures |r| == |values| && forall i :: 0 <= i < |values| ==> r[i] == Rewritten(values[i], helper)
  {
    seq(|values|, i requires 0 <= i < |values| => Rewritten(values[i], helper))
  }

  function RewrittenState(state: State, helper: string): State {
    State(RewrittenAll(state.store, helper), RewrittenAll(state.loaded, helper))
  }

  function RewrittenOutcome(outcome: Outcome, helper: string): Outcome {
    match outcome
    case Normal(v, state) => Normal(Rewritten(v, helper), RewrittenState(state, helper))
    case Returned(v, state) => Returned(Rewritten(v, helper), RewrittenState(state, helper))
    case Thrown(state) => Thrown(RewrittenState(state, helper))
    case OutOfFuel => OutOfFuel
  }

  function RewrittenArgs(outcome: ArgsOutcome, helper: string): ArgsOutcome {
    match outcome
    case Values(values, state) => Values(RewrittenAll(values, helper), RewrittenState(state, helper))
    case Failed(failure) => Failed(RewrittenOutcome(failure, helper))
  }

  // ---------- what stays true while the module runs ----------

  /** Only the name require reaches the module's require, and nothing reaches the helper. */
  ghost predicate SoundEnv(env: Env, helper: string) {
    && REQUIRE in env && helper !in env && helper != REQUIRE
    && forall id :: id in env && env[id] < 2 ==> id == REQUIRE && env[id] == REQUIRE_AT
  }

  ghost predicate SoundCode(params: Params, body: Stmts, bound: bool, helper: string) {
    && !MentionsParams(params, helper) && !MentionsStmts(body, helper)
    && !WritesParams(params, BoundInParams(params, bound)) && !WritesStmts(body, BoundInBody(params, body, bound))
  }

  ghost predicate SoundValue(v: Value, helper: string) {
    match v
    case Exports(specifier) => SoundValue(specifier, helper)
    case Closure(params, body, env) => SoundEnv(env, helper) && SoundCode(params, body, Rebound(env), helper)
    case Fields(pairs) => SoundPairs(pairs, helper)
    case _ => true
  }

  ghost predicate SoundPairs(pairs: Pairs, helper: string) {
    pairs.Pair? ==> SoundValue(pairs.value, helper) && SoundPairs(pairs.rest, helper)
  }

  ghost predicate SoundValues(values: seq<Value>, helper: string) {
    forall i :: 0 <= i < |values| ==> SoundValue(values[i], helper)
  }

  ghost predicate SoundState(state: State, helper: string) {
    && |state.store| >= 2 && state.store[REQUIRE_AT] == Require && state.store[HELPER_AT] == Require
    && SoundValues(state.store, helper) && SoundValues(state.loaded, helper)
  }

  ghost predicate SoundOutcome(outcome: Outcome, helper: string) {
    match outcome
    case Normal(v, state) => SoundValue(v, helper) && SoundState(state, helper)
    case Returned(v, state) => SoundValue(v, helper) && SoundState(state, helper)
    case Thrown(state) => SoundState(state, helper)
    case OutOfFuel => true
  }

  ghost predicate SoundArgs(outcome: ArgsOutcome, helper: string) {
    match outcome
    case Values(values, state) => SoundValues(values, helper) && SoundState(state, helper)
    case Failed(failure) => SoundOutcome(failure, helper)
  }

  /** Running the rewritten code gives the rewritten outcome. */
  ghost predicate Corresponds(rewritten: Outcome, outcome: Outcome, helper: string) {
    rewritten == RewrittenOutcome(outcome, helper) && SoundOutcome(outcome, helper)
  }

  // ---------- names ----------

  lemma SimpleStaySimple(v: Value, helper: string)
    ensures Rewritten(v, helper).Uninitialized? <==> v.Uninitialized?
    ensures Rewritten(v, helper) == Undefined <==> v == Undefined
  {
  }

  lemma StoreAgrees(state: State, helper: string, at: nat)
    requires at < |state.store|
    ensures RewrittenState(state, helper).store[at] == Rewritten(state.store[at], helper)
    ensures SoundState(state, helper) ==> SoundValue(state.store[at], helper)
  {
  }

  /** A name other than the helper means the same. */
  lemma LookupAgrees(id: string, env: Env, state: State, helper: string)
    requires SoundEnv(env, helper) && SoundState(state, helper) && id != helper
    ensures Corresponds(Lookup(id, WithHelper(env, helper), RewrittenState(state, helper)), Lookup(id, env, state), helper)
  {
    if id in env && env[id] < |state.store| {
      StoreAgrees(state, helper, env[id]);
      SimpleStaySimple(state.store[env[id]], helper);
    }
  }

  /** The helper means what require means where nothing rebinds it. */
  lemma HelperAgrees(env: Env, state: State, helper: string)
    requires SoundEnv(env, helper) && SoundState(state, helper) && !Rebound(env)
    ensures Corresponds(Lookup(helper, WithHelper(env, helper), RewrittenState(state, helper)), Lookup(REQUIRE, env, state), helper)
  {
    StoreAgrees(state, helper, HELPER_AT);
  }

  lemma UpdateAgrees(state: State, at: nat, v: Value, helper: string)
    requires SoundState(state, helper) && SoundValue(v, helper) && 2 <= at < |state.store|
    ensures SoundState(state.(store := state.store[at := v]), helper)
    ensures RewrittenState(state.(store := state.store[at := v]), helper)
         == RewrittenState(state, helper).(store := RewrittenState(state, helper).store[at := Rewritten(v, helper)])
  {
    hide Rewritten, SoundValue;
    assert RewrittenAll(state.store[at := v], helper) == RewrittenAll(state.store, helper)[at := Rewritten(v, helper)];
  }

  lemma AllocatedAgrees(state: State, v: Value, helper: string)
    requires SoundState(state, helper) && SoundValue(v, helper)
    ensures SoundState(Allocated(state, v), helper)
    ensures RewrittenState(Allocated(state, v), helper) == Allocated(RewrittenState(state, helper), Rewritten(v, helper))
  {
    hide Rewritten, SoundValue;
    assert RewrittenAll(state.store + [v], helper) == RewrittenAll(state.store, helper) + [Rewritten(v, helper)];
  }

  /** A first write never reaches the module's require. */
  lemma InitializedAgrees(id: string, v: Value, env: Env, state: State, helper: string)
    requires SoundEnv(env, helper) && SoundState(state, helper) && SoundValue(v, helper)
    requires id != helper && (id == REQUIRE ==> Rebound(env))
    ensures Corresponds(Initialized(id, Rewritten(v, helper), WithHelper(env, helper), RewrittenState(state, helper)),
                        Initialized(id, v, env, state), helper)
  {
    hide Rewritten, SoundValue;
    if id in env && env[id] < |state.store| { UpdateAgrees(state, env[id], v, helper); }
  }

  lemma AssignedAgrees(id: string, v: Value, env: Env, state: State, helper: string)
    requires SoundEnv(env, helper) && SoundState(state, helper) && SoundValue(v, helper)
    requires id != helper && (id == REQUIRE ==> Rebound(env))
    ensures Corresponds(Assigned(id, Rewritten(v, helper), WithHelper(env, helper), RewrittenState(state, helper)),
                        Assigned(id, v, env, state), helper)
  {
    hide Rewritten, SoundValue, Initialized;
    LookupAgrees(id, env, state, helper);
    InitializedAgrees(id, v, env, state, helper);
  }

  lemma {:induction false} FieldAgrees(pairs: Pairs, key: string, helper: string)
    ensures FieldOf(RewrittenPairs(pairs, helper), key) == Rewritten(FieldOf(pairs, key), helper)
    ensures HasField(RewrittenPairs(pairs, helper), key) <==> HasField(pairs, key)
    ensures SoundPairs(pairs, helper) ==> SoundValue(FieldOf(pairs, key), helper)
  {
    if pairs.Pair? { FieldAgrees(pairs.rest, key, helper); }
  }

  // ---------- entering a scope ----------

  /** A scope entered on both sides: corresponding environments and states, and the name bound
      exactly where the static analysis says so. */
  ghost predicate Entered(rewritten: (Env, State), entered: (Env, State), bound: bool, helper: string) {
    && SoundEnv(entered.0, helper) && SoundState(entered.1, helper)
    && rewritten == (WithHelper(entered.0, helper), RewrittenState(entered.1, helper))
    && (Rebound(entered.0) <==> bound)
  }

  /** One more name. */
  lemma BindingAgrees(id: string, v: Value, env: Env, state: State, helper: string)
    requires SoundEnv(env, helper) && SoundState(state, helper) && SoundValue(v, helper) && id != helper
    ensures Entered((WithHelper(env, helper)[id := |RewrittenState(state, helper).store|], Allocated(RewrittenState(state, helper), Rewritten(v, helper))),
                    (env[id := |state.store|], Allocated(state, v)), Rebound(env) || id == REQUIRE, helper)
  {
    hide Rewritten, SoundValue;
    AllocatedAgrees(state, v, helper);
    assert WithHelper(env, helper)[id := |state.store|] == WithHelper(env[id := |state.store|], helper);
  }

  lemma {:induction false} ParamsEntered(params: Params, env: Env, state: State, bound: bool, helper: string)
    requires SoundEnv(env, helper) && SoundState(state, helper) && !MentionsParams(params, helper)
    ensures Entered(AllocateParams(RewriteParams(params, bound, helper), WithHelper(env, helper), RewrittenState(state, helper)),
                    AllocateParams(params, env, state), BoundInParams(params, Rebound(env)), helper)
    ensures ParamNames(RewriteParams(params, bound, helper)) == ParamNames(params)
    decreases params
  {
    match params
    case NoParams =>
    case Plain(id, rest) =>
      BindingAgrees(id, Uninitialized, env, state, helper);
      ParamsEntered(rest, env[id := |state.store|], Allocated(state, Uninitialized), bound, helper);
    case Defaulted(id, _, rest) =>
      BindingAgrees(id, Uninitialized, env, state, helper);
      ParamsEntered(rest, env[id := |state.store|], Allocated(state, Uninitialized), bound, helper);
  }

  lemma StartAgrees(id: string, inherited: set<string>, env: Env, state: State, helper: string)
    requires SoundEnv(env, helper) && SoundState(state, helper) && id != helper
    ensures StartOfVar(id, inherited, WithHelper(env, helper), RewrittenState(state, helper)) == Rewritten(StartOfVar(id, inherited, env, state), helper)
    ensures SoundValue(StartOfVar(id, inherited, env, state), helper)
  {
  }

  lemma {:induction false} VarsEntered(stmts: Stmts, inherited: set<string>, env: Env, state: State, bound: bool, helper: string)
    requires SoundEnv(env, helper) && SoundState(state, helper) && !MentionsStmts(stmts, helper)
    ensures Entered(AllocateVars(RewriteStmts(stmts, bound, helper), inherited, WithHelper(env, helper), RewrittenState(state, helper)),
                    AllocateVars(stmts, inherited, env, state), Rebound(env) || REQUIRE in Hoisted(stmts), helper)
    decreases stmts
  {
    hide Rewritten, SoundValue, SoundEnv, SoundState, Rebound, RewrittenState, StartOfVar, WithHelper;
    match stmts
    case End =>
    case Then(Var(id, _), rest) =>
      StartAgrees(id, inherited, env, state, helper);
      var start := StartOfVar(id, inherited, env, state);
      BindingAgrees(id, start, env, state, helper);
      VarsEntered(rest, inherited, env[id := |state.store|], Allocated(state, start), bound, helper);
    case Then(Block(body), rest) =>
      VarsEntered(body, inherited, env, state, BoundInBlock(body, bound), helper);
      var (env1, state1) := AllocateVars(body, inherited, env, state);
      VarsEntered(rest, inherited, env1, state1, bound, helper);
    case Then(_, rest) => VarsEntered(rest, inherited, env, state, bound, helper);
  }

  lemma {:induction false} LexicalEntered(stmts: Stmts, env: Env, state: State, bound: bool, helper: string)
    requires SoundEnv(env, helper) && SoundState(state, helper) && !MentionsStmts(stmts, helper)
    ensures Entered(AllocateLexical(RewriteStmts(stmts, bound, helper), WithHelper(env, helper), RewrittenState(state, helper)),
                    AllocateLexical(stmts, env, state), Rebound(env) || REQUIRE in Lexical(stmts), helper)
    decreases stmts
  {
    hide SoundEnv, SoundState, Rebound, RewrittenState, WithHelper;
    match stmts
    case End =>
    case Then(Let(id, _), rest) =>
      BindingAgrees(id, Uninitialized, env, state, helper);
      LexicalEntered(rest, env[id := |state.store|], Allocated(state, Uninitialized), bound, helper);
    case Then(Declare(id, _, _), rest) =>
      BindingAgrees(id, Uninitialized, env, state, helper);
      LexicalEntered(rest, env[id := |state.store|], Allocated(state, Uninitialized), bound, helper);
    case Then(_, rest) => LexicalEntered(rest, env, state, bound, helper);
  }

  lemma {:induction false} FunctionsDeclared(stmts: Stmts, env: Env, state: State, helper: string)
    requires SoundEnv(env, helper) && SoundState(state, helper) && !MentionsStmts(stmts, helper)
    requires (REQUIRE in Lexical(stmts) ==> Rebound(env)) && !WritesStmts(stmts, Rebound(env))
    ensures SoundState(DeclareFunctions(stmts, env, state), helper)
    ensures DeclareFunctions(RewriteStmts(stmts, Rebound(env), helper), WithHelper(env, helper), RewrittenState(state, helper))
         == RewrittenState(DeclareFunctions(stmts, env, state), helper)
    decreases stmts
  {
    hide SoundState, RewrittenState;
    match stmts
    case End =>
    case Then(Declare(id, params, body), rest) =>
      var f := Closure(params, body, env);
      assert SoundValue(f, helper);
      InitializedAgrees(id, f, env, state, helper);
      SizeAgrees(state, helper);
      var declared := if id in env && env[id] < |state.store| then state.(store := state.store[env[id] := f]) else state;
      FunctionsDeclared(rest, env, declared, helper);
    case Then(_, rest) => FunctionsDeclared(rest, env, state, helper);
  }

  lemma SizeAgrees(state: State, helper: string)
    ensures |RewrittenState(state, helper).store| == |state.store|
  {
  }

  lemma BlockEntered(stmts: Stmts, env: Env, state: State, helper: string)
    requires SoundEnv(env, helper) && SoundState(state, helper) && !MentionsStmts(stmts, helper)
    requires !WritesStmts(stmts, BoundInBlock(stmts, Rebound(env)))
    ensures Entered(EnterBlock(RewriteStmts(stmts, BoundInBlock(stmts, Rebound(env)), helper), WithHelper(env, helper), RewrittenState(state, helper)),
                    EnterBlock(stmts, env, state), BoundInBlock(stmts, Rebound(env)), helper)
  {
    hide SoundEnv, SoundState, Rebound, RewrittenState, WithHelper, RewriteStmts, WritesStmts, AllocateLexical, DeclareFunctions;
    LexicalEntered(stmts, env, state, BoundInBlock(stmts, Rebound(env)), helper);
    var (env1, state1) := AllocateLexical(stmts, env, state);
    FunctionsDeclared(stmts, env1, state1, helper);
  }

  lemma BodyEntered(params: Params, body: Stmts, env: Env, state: State, helper: string)
    requires SoundEnv(env, helper) && SoundState(state, helper) && !MentionsStmts(body, helper)
    requires REQUIRE in ParamNames(params) ==> Rebound(env)
    requires !WritesStmts(body, BoundInBody(params, body, Rebound(env)))
    ensures forall bound :: Entered(
              EnterBody(RewriteParams(params, bound, helper), RewriteStmts(body, BoundInBody(params, body, Rebound(env)), helper), WithHelper(env, helper), RewrittenState(state, helper)),
              EnterBody(params, body, env, state), BoundInBody(params, body, Rebound(env)), helper)
  {
    hide SoundEnv, SoundState, Rebound, RewrittenState, WithHelper, RewriteStmts, WritesStmts, AllocateVars, EnterBlock, RewriteParams;
    forall bound ensures ParamNames(RewriteParams(params, bound, helper)) == ParamNames(params) { NamesStay(params, bound, helper); }
    var all := BoundInBody(params, body, Rebound(env));
    VarsEntered(body, ParamNames(params), env, state, all, helper);
    var (env1, state1) := AllocateVars(body, ParamNames(params), env, state);
    BlockEntered(body, env1, state1, helper);
  }

  lemma {:induction false} NamesStay(params: Params, bound: bool, helper: string)
    ensures ParamNames(RewriteParams(params, bound, helper)) == ParamNames(params)
  {
    match params
    case NoParams =>
    case Plain(_, rest) => NamesStay(rest, bound, helper);
    case Defaulted(_, _, rest) => NamesStay(rest, bound, helper);
  }

  // ---------- evaluation ----------

  ghost predicate Ready(env: Env, state: State, helper: string) { SoundEnv(env, helper) && SoundState(state, helper) }

  lemma {:induction false} ExprAgrees(e: Expr, env: Env, state: State, fuel: nat, helper: string)
    requires Ready(env, state, helper) && !MentionsExpr(e, helper) && !WritesExpr(e, Rebound(env))
    ensures Corresponds(EvalExpr(RewriteExpr(e, Rebound(env), helper), WithHelper(env, helper), RewrittenState(state, helper), fuel),
                        EvalExpr(e, env, state, fuel), helper)
    decreases fuel, e, 1
  {
    hide SoundEnv, SoundState, Rebound, RewrittenState, WithHelper, Lookup, Assigned, CallWith, IsStaticCall;
    match e
    case Number(_) =>
    case Text(_) =>
    case Name(id) =>
      if id == REQUIRE && !Rebound(env) { HelperAgrees(env, state, helper); } else { LookupAgrees(id, env, state, helper); }
    case Function(params, body) =>
    case Record(props) => PropsAgree(props, env, state, fuel, helper);
    case Get(target, key) => GetAgrees(target, key, env, state, fuel, helper);
    case Assign(id, value) =>
      ExprAgrees(value, env, state, fuel, helper);
      var outcome := EvalExpr(value, env, state, fuel);
      if outcome.Normal? { AssignedAgrees(id, outcome.value, env, outcome.state, helper); }
    case Call(callee, args) =>
      CalleeAgrees(callee, args, env, state, fuel, helper);
      CallAgrees(EvalExpr(callee, env, state, fuel), args, env, fuel, helper);
  }

  lemma {:induction false} GetAgrees(target: Expr, key: string, env: Env, state: State, fuel: nat, helper: string)
    requires Ready(env, state, helper) && !MentionsExpr(target, helper) && !WritesExpr(target, Rebound(env))
    ensures Corresponds(EvalExpr(Get(RewriteExpr(target, Rebound(env), helper), key), WithHelper(env, helper), RewrittenState(state, helper), fuel),
                        EvalExpr(Get(target, key), env, state, fuel), helper)
    decreases fuel, target, 2
  {
    hide SoundEnv, SoundState, Rebound, RewrittenState, WithHelper, RewriteExpr;
    ExprAgrees(target, env, state, fuel, helper);
    var outcome := EvalExpr(target, env, state, fuel);
    if outcome.Normal? && outcome.value.Fields? { FieldAgrees(outcome.value.pairs, key, helper); }
  }

  /** The callee that is left alone names the same require. */
  lemma {:induction false} CalleeAgrees(callee: Expr, args: Args, env: Env, state: State, fuel: nat, helper: string)
    requires Ready(env, state, helper) && !MentionsExpr(callee, helper) && !WritesExpr(callee, Rebound(env))
    ensures var callee' := if IsStaticCall(callee, args) then callee else RewriteExpr(callee, Rebound(env), helper);
            Corresponds(EvalExpr(callee', WithHelper(env, helper), RewrittenState(state, helper), fuel), EvalExpr(callee, env, state, fuel), helper)
    decreases fuel, callee, 2
  {
    hide SoundState, Rebound, RewrittenState, WithHelper, RewriteExpr, Lookup;
    if IsStaticCall(callee, args) {
      LookupAgrees(REQUIRE, env, state, helper);
    } else {
      ExprAgrees(callee, env, state, fuel, helper);
    }
  }

  lemma {:induction false} CallAgrees(callee: Outcome, args: Args, env: Env, fuel: nat, helper: string)
    requires SoundEnv(env, helper) && SoundOutcome(callee, helper) && !MentionsArgs(args, helper) && !WritesArgs(args, Rebound(env))
    ensures Corresponds(CallWith(RewrittenOutcome(callee, helper), RewriteArgs(args, Rebound(env), helper), WithHelper(env, helper), fuel),
                        CallWith(callee, args, env, fuel), helper)
    decreases fuel, args, 1
  {
    hide SoundEnv, SoundState, Rebound, RewrittenState, WithHelper, RewriteArgs, Apply;
    if callee.Normal? {
      ArgsAgree(args, env, callee.state, fuel, helper);
      var arguments := EvalArgs(args, env, callee.state, fuel);
      if arguments.Values? && fuel > 0 { ApplyAgrees(callee.value, arguments.values, arguments.state, fuel - 1, helper); }
    }
  }

  lemma {:induction false} ArgsAgree(args: Args, env: Env, state: State, fuel: nat, helper: string)
    requires Ready(env, state, helper) && !MentionsArgs(args, helper) && !WritesArgs(args, Rebound(env))
    ensures var r := EvalArgs(RewriteArgs(args, Rebound(env), helper), WithHelper(env, helper), RewrittenState(state, helper), fuel);
            r == RewrittenArgs(EvalArgs(args, env, state, fuel), helper) && SoundArgs(EvalArgs(args, env, state, fuel), helper)
    decreases fuel, args, 0
  {
    hide SoundEnv, SoundState, Rebound, RewrittenState, WithHelper;
    match args
    case NoArgs => assert RewrittenAll([], helper) == [];
    case Arg(head, rest) =>
      ExprAgrees(head, env, state, fuel, helper);
      var first := EvalExpr(head, env, state, fuel);
      if first.Normal? {
        ArgsAgree(rest, env, first.state, fuel, helper);
        var others := EvalArgs(rest, env, first.state, fuel);
        if others.Values? {
          assert RewrittenAll([first.value] + others.values, helper) == [Rewritten(first.value, helper)] + RewrittenAll(others.values, helper);
        }
      }
  }

  lemma {:induction false} PropsAgree(props: Props, env: Env, state: State, fuel: nat, helper: string)
    requires Ready(env, state, helper) && !MentionsProps(props, helper) && !WritesProps(props, Rebound(env))
    ensures Corresponds(EvalProps(RewriteProps(props, Rebound(env), helper), WithHelper(env, helper), RewrittenState(state, helper), fuel),
                        EvalProps(props, env, state, fuel), helper)
    decreases fuel, props, 0
  {
    hide SoundEnv, SoundState, Rebound, RewrittenState, WithHelper, Lookup;
    match props
    case NoProps => EmptyRecord(helper);
    case Shorthand(id, rest) =>
      if id == REQUIRE && !Rebound(env) { HelperAgrees(env, state, helper); } else { LookupAgrees(id, env, state, helper); }
      PairAgrees(id, Lookup(id, env, state), rest, env, fuel, helper);
    case Prop(key, value, rest) =>
      ExprAgrees(value, env, state, fuel, helper);
      PairAgrees(key, EvalExpr(value, env, state, fuel), rest, env, fuel, helper);
  }

  lemma {:induction false} PairAgrees(key: string, first: Outcome, rest: Props, env: Env, fuel: nat, helper: string)
    requires SoundEnv(env, helper) && SoundOutcome(first, helper) && !MentionsProps(rest, helper) && !WritesProps(rest, Rebound(env))
    ensures Corresponds(WithPair(key, RewrittenOutcome(first, helper), RewriteProps(rest, Rebound(env), helper), WithHelper(env, helper), fuel),
                        WithPair(key, first, rest, env, fuel), helper)
    decreases fuel, rest, 1
  {
    hide SoundEnv, SoundState, Rebound, RewrittenState, WithHelper, RewriteProps;
    if first.Normal? {
      PropsAgree(rest, env, first.state, fuel, helper);
      var others := EvalProps(rest, env, first.state, fuel);
      if others.Normal? && others.value.Fields? { PairRewritten(key, first.value, others.value.pairs, helper); }
    }
  }

  lemma EmptyRecord(helper: string)
    ensures Rewritten(Fields(NoPairs), helper) == Fields(NoPairs) && SoundValue(Fields(NoPairs), helper)
  {
    assert RewrittenPairs(NoPairs, helper) == NoPairs && SoundPairs(NoPairs, helper);
  }

  lemma PairRewritten(key: string, v: Value, rest: Pairs, helper: string)
    ensures Rewritten(Fields(Pair(key, v, rest)), helper) == Fields(Pair(key, Rewritten(v, helper), RewrittenPairs(rest, helper)))
    ensures Rewritten(Fields(rest), helper) == Fields(RewrittenPairs(rest, helper))
    ensures SoundValue(Fields(Pair(key, v, rest)), helper) <==> SoundValue(v, helper) && SoundValue(Fields(rest), helper)
  {
    assert SoundPairs(Pair(key, v, rest), helper) <==> SoundValue(v, helper) && SoundPairs(rest, helper);
    assert RewrittenPairs(Pair(key, v, rest), helper) == Pair(key, Rewritten(v, helper), RewrittenPairs(rest, helper));
  }

  lemma {:induction false} ParamsFilled(params: Params, values: seq<Value>, env: Env, state: State, fuel: nat, helper: string)
    requires Ready(env, state, helper) && SoundValues(values, helper) && !MentionsParams(params, helper) && !WritesParams(params, Rebound(env))
    requires REQUIRE in ParamNames(params) ==> Rebound(env)
    ensures Corresponds(FillParams(RewriteParams(params, Rebound(env), helper), RewrittenAll(values, helper), WithHelper(env, helper), RewrittenState(state, helper), fuel),
                        FillParams(params, values, env, state, fuel), helper)
    decreases fuel, params, 0
  {
    hide SoundEnv, SoundState, Rebound, RewrittenState, WithHelper, Initialized;
    var first := if values == [] then Undefined else values[0];
    var others := if values == [] then [] else values[1..];
    assert RewrittenAll(others, helper) == (if RewrittenAll(values, helper) == [] then [] else RewrittenAll(values, helper)[1..]);
    SimpleStaySimple(first, helper);
    match params
    case NoParams =>
    case Plain(id, rest) =>
      InitializedAgrees(id, first, env, state, helper);
      RestFilled(Initialized(id, first, env, state), rest, others, env, fuel, helper);
    case Defaulted(id, fallback, rest) =>
      if first != Undefined {
        InitializedAgrees(id, first, env, state, helper);
        RestFilled(Initialized(id, first, env, state), rest, others, env, fuel, helper);
      } else {
        ExprAgrees(fallback, env, state, fuel, helper);
        var outcome := EvalExpr(fallback, env, state, fuel);
        if outcome.Normal? {
          InitializedAgrees(id, outcome.value, env, outcome.state, helper);
          RestFilled(Initialized(id, outcome.value, env, outcome.state), rest, others, env, fuel, helper);
        }
      }
  }

  lemma {:induction false} RestFilled(first: Outcome, rest: Params, others: seq<Value>, env: Env, fuel: nat, helper: string)
    requires SoundEnv(env, helper) && SoundOutcome(first, helper) && SoundValues(others, helper)
    requires !MentionsParams(rest, helper) && !WritesParams(rest, Rebound(env)) && (REQUIRE in ParamNames(rest) ==> Rebound(env))
    ensures Corresponds(FillRest(RewrittenOutcome(first, helper), RewriteParams(rest, Rebound(env), helper), RewrittenAll(others, helper), WithHelper(env, helper), fuel),
                        FillRest(first, rest, others, env, fuel), helper)
    decreases fuel, rest, 1
  {
    hide SoundEnv, SoundState, Rebound, RewrittenState, WithHelper, RewriteParams;
    if first.Normal? { ParamsFilled(rest, others, env, first.state, fuel, helper); }
  }

  lemma RequireAgrees(values: seq<Value>, state: State, fuel: nat, helper: string)
    requires SoundValues(values, helper) && SoundState(state, helper)
    ensures Corresponds(Apply(Require, RewrittenAll(values, helper), RewrittenState(state, helper), fuel), Apply(Require, values, state, fuel), helper)
  {
    hide Rewritten;
    var specifier := if values == [] then Undefined else values[0];
    SimpleStaySimple(Undefined, helper);
    ExportsAgree(specifier, helper);
    assert SoundValue(specifier, helper);
    assert RewrittenAll(state.loaded + [specifier], helper) == RewrittenAll(state.loaded, helper) + [Rewritten(specifier, helper)];
  }

  lemma ExportsAgree(specifier: Value, helper: string)
    ensures Rewritten(Exports(specifier), helper) == Exports(Rewritten(specifier, helper))
    ensures Rewritten(Require, helper) == Require
    ensures SoundValue(Exports(specifier), helper) <==> SoundValue(specifier, helper)
  {
  }

  lemma {:induction false} ApplyAgrees(f: Value, values: seq<Value>, state: State, fuel: nat, helper: string)
    requires SoundValue(f, helper) && SoundValues(values, helper) && SoundState(state, helper)
    ensures Corresponds(Apply(Rewritten(f, helper), RewrittenAll(values, helper), RewrittenState(state, helper), fuel),
                        Apply(f, values, state, fuel), helper)
    decreases fuel
  {
    hide SoundEnv, SoundState, Rebound, RewrittenState, WithHelper, SoundValues, AllocateParams, FillParams, Body, RewriteParams, RewriteStmts;
    match f
    case Require => RequireAgrees(values, state, fuel, helper);
    case Closure(params, body, outer) =>
      var bound := Rebound(outer);
      ParamsEntered(params, outer, state, BoundInParams(params, bound), helper);
      var (env, state1) := AllocateParams(params, outer, state);
      ParamsFilled(params, values, env, state1, fuel, helper);
      var filled := FillParams(params, values, env, state1, fuel);
      if filled.Normal? {
        assert BoundInBody(params, body, bound) == BoundInBody(params, body, Rebound(env));
        BodyAgrees(params, body, env, filled.state, fuel, helper);
      }
    case _ =>
  }

  lemma {:induction false} BodyAgrees(params: Params, body: Stmts, env: Env, state: State, fuel: nat, helper: string)
    requires Ready(env, state, helper) && !MentionsStmts(body, helper) && (REQUIRE in ParamNames(params) ==> Rebound(env))
    requires !WritesStmts(body, BoundInBody(params, body, Rebound(env)))
    ensures forall bound :: Corresponds(
              Body(RewriteParams(params, bound, helper), RewriteStmts(body, BoundInBody(params, body, Rebound(env)), helper), WithHelper(env, helper), RewrittenState(state, helper), fuel),
              Body(params, body, env, state, fuel), helper)
    decreases fuel, body, 1
  {
    hide SoundEnv, SoundState, Rebound, RewrittenState, WithHelper, EnterBody, RewriteParams, RewriteStmts;
    BodyEntered(params, body, env, state, helper);
    var (inner, state1) := EnterBody(params, body, env, state);
    forall bound ensures EnterBody(RewriteParams(params, bound, helper), RewriteStmts(body, BoundInBody(params, body, Rebound(env)), helper), WithHelper(env, helper), RewrittenState(state, helper))
                      == (WithHelper(inner, helper), RewrittenState(state1, helper)) {}
    assert Entered((WithHelper(inner, helper), RewrittenState(state1, helper)), (inner, state1), BoundInBody(params, body, Rebound(env)), helper) by {
      assert Entered(EnterBody(RewriteParams(params, true, helper), RewriteStmts(body, BoundInBody(params, body, Rebound(env)), helper), WithHelper(env, helper), RewrittenState(state, helper)),
                     EnterBody(params, body, env, state), BoundInBody(params, body, Rebound(env)), helper);
    }
    StmtsAgree(body, inner, state1, fuel, helper);
  }

  lemma {:induction false} StmtAgrees(stmt: Stmt, env: Env, state: State, fuel: nat, helper: string)
    requires Ready(env, state, helper) && !MentionsStmt(stmt, helper) && !WritesStmt(stmt, Rebound(env))
    requires REQUIRE in Lexical(Then(stmt, End)) || REQUIRE in Hoisted(Then(stmt, End)) ==> Rebound(env)
    ensures Corresponds(ExecStmt(RewriteStmt(stmt, Rebound(env), helper), WithHelper(env, helper), RewrittenState(state, helper), fuel),
                        ExecStmt(stmt, env, state, fuel), helper)
    decreases fuel, stmt, 0
  {
    hide SoundEnv, SoundState, Rebound, RewrittenState, WithHelper, Initialized, EnterBlock, RewriteStmts, RewriteExpr, RewriteParams;
    match stmt
    case Do(expr) => ExprAgrees(expr, env, state, fuel, helper);
    case Let(id, value) =>
      ExprAgrees(value, env, state, fuel, helper);
      var outcome := EvalExpr(value, env, state, fuel);
      if outcome.Normal? { InitializedAgrees(id, outcome.value, env, outcome.state, helper); }
    case Var(id, value) =>
      ExprAgrees(value, env, state, fuel, helper);
      var outcome := EvalExpr(value, env, state, fuel);
      if outcome.Normal? { InitializedAgrees(id, outcome.value, env, outcome.state, helper); }
    case Declare(_, _, _) =>
    case Block(body) =>
      BlockEntered(body, env, state, helper);
      var (inner, state1) := EnterBlock(body, env, state);
      StmtsAgree(body, inner, state1, fuel, helper);
    case Return(expr) => ExprAgrees(expr, env, state, fuel, helper);
  }

  lemma HeadDeclares(head: Stmt, rest: Stmts)
    ensures Lexical(Then(head, End)) <= Lexical(Then(head, rest)) && Hoisted(Then(head, End)) <= Hoisted(Then(head, rest))
    ensures Lexical(rest) <= Lexical(Then(head, rest)) && Hoisted(rest) <= Hoisted(Then(head, rest))
  {
  }

  lemma {:induction false} StmtsAgree(stmts: Stmts, env: Env, state: State, fuel: nat, helper: string)
    requires Ready(env, state, helper) && !MentionsStmts(stmts, helper) && !WritesStmts(stmts, Rebound(env))
    requires REQUIRE in Lexical(stmts) || REQUIRE in Hoisted(stmts) ==> Rebound(env)
    ensures Corresponds(ExecStmts(RewriteStmts(stmts, Rebound(env), helper), WithHelper(env, helper), RewrittenState(state, helper), fuel),
                        ExecStmts(stmts, env, state, fuel), helper)
    decreases fuel, stmts, 0
  {
    hide SoundEnv, SoundState, Rebound, RewrittenState, WithHelper, RewriteStmt;
    match stmts
    case End =>
    case Then(head, rest) =>
      HeadDeclares(head, rest);
      StmtAgrees(head, env, state, fuel, helper);
      var outcome := ExecStmt(head, env, state, fuel);
      if outcome.Normal? { StmtsAgree(rest, env, outcome.state, fuel, helper); }
  }

  // ---------- main result ----------

  /** Before the module runs only its require exists; the helper is a second location with the same
      value, as the inserted declaration makes it. */
  function ModuleEnv(): Env { map[REQUIRE := REQUIRE_AT] }

  function ModuleState(): State { State([Require, Require], []) }

  /** For every module that never writes require, every fresh helper and every amount of fuel, the
      rewritten module with the helper in scope ends as the original does. */
  lemma RewriteKeepsMeaning(stmts: Stmts, helper: string, fuel: nat)
    requires LeavesRequireAlone(stmts) && !MentionsStmts(stmts, helper) && helper != REQUIRE
    ensures RunModule(RewriteModule(stmts, helper), WithHelper(ModuleEnv(), helper), ModuleState(), fuel)
         == RewrittenOutcome(RunModule(stmts, ModuleEnv(), ModuleState(), fuel), helper)
  {
    var env, state := ModuleEnv(), ModuleState();
    assert RewrittenAll(state.store, helper) == state.store && RewrittenAll(state.loaded, helper) == state.loaded;
    assert BoundInBody(NoParams, stmts, Rebound(env)) == BoundInBlock(stmts, false);
    BodyAgrees(NoParams, stmts, env, state, fuel, helper);
    assert RewriteParams(NoParams, false, helper) == NoParams;
  }
}
