/** What a module does, as an interpreter: environments map names to locations, closures keep their
    environment, and the calls of the module's require are recorded. */
module ModuleMeaning {
  import opened ModuleSyntax

  type Env = map<string, nat>

  datatype Value =
    | Num(n: nat)
    | Str(text: string)
    | Undefined
    | Uninitialized
    | Require
    | Exports(specifier: Value)
    | Closure(params: Params, body: Stmts, env: Env)
    | Fields(pairs: Pairs)

  datatype Pairs = NoPairs | Pair(key: string, value: Value, rest: Pairs)

  /** The values at each location, and what was required so far, in order. */
  datatype State = State(store: seq<Value>, loaded: seq<Value>)

  datatype Outcome =
    | Normal(value: Value, state: State)
    | Returned(value: Value, state: State)
    | Thrown(state: State)
    | OutOfFuel

  datatype ArgsOutcome = Values(values: seq<Value>, state: State) | Failed(outcome: Outcome)

  // ---------- names ----------

  function Lookup(id: string, env: Env, state: State): Outcome {
    if id in env && env[id] < |state.store| && !state.store[env[id]].Uninitialized? then Normal(state.store[env[id]], state)
    else Thrown(state)
  }

  function Allocated(state: State, value: Value): State { state.(store := state.store + [value]) }

  /** The first write of a name, which may still be uninitialized. */
  function Initialized(id: string, value: Value, env: Env, state: State): Outcome {
    if id in env && env[id] < |state.store| then Normal(value, state.(store := state.store[env[id] := value]))
    else Thrown(state)
  }

  function Assigned(id: string, value: Value, env: Env, state: State): Outcome {
    if Lookup(id, env, state).Normal? then Initialized(id, value, env, state) else Thrown(state)
  }

  function FieldOf(pairs: Pairs, key: string): Value {
    match pairs
    case NoPairs => Undefined
    case Pair(k, value, rest) => if k == key && !HasField(rest, key) then value else FieldOf(rest, key)
  }

  /** The last property of a name wins. */
  predicate HasField(pairs: Pairs, key: string) {
    pairs.Pair? && (pairs.key == key || HasField(pairs.rest, key))
  }

  // ---------- entering a scope ----------

  function AllocateParams(params: Params, env: Env, state: State): (Env, State) {
    match params
    case NoParams => (env, state)
    case Plain(id, rest) => AllocateParams(rest, env[id := |state.store|], Allocated(state, Uninitialized))
    case Defaulted(id, _, rest) => AllocateParams(rest, env[id := |state.store|], Allocated(state, Uninitialized))
  }

  /** A var that names a parameter starts with the parameter's value. */
  function StartOfVar(id: string, inherited: set<string>, env: Env, state: State): Value {
    if id in inherited && id in env && env[id] < |state.store| then state.store[env[id]] else Undefined
  }

  function AllocateVars(stmts: Stmts, inherited: set<string>, env: Env, state: State): (Env, State) {
    match stmts
    case End => (env, state)
    case Then(Var(id, _), rest) =>
      AllocateVars(rest, inherited, env[id := |state.store|], Allocated(state, StartOfVar(id, inherited, env, state)))
    case Then(Block(body), rest) =>
      var (env1, state1) := AllocateVars(body, inherited, env, state);
      AllocateVars(rest, inherited, env1, state1)
    case Then(_, rest) => AllocateVars(rest, inherited, env, state)
  }

  function AllocateLexical(stmts: Stmts, env: Env, state: State): (Env, State) {
    match stmts
    case End => (env, state)
    case Then(Let(id, _), rest) => AllocateLexical(rest, env[id := |state.store|], Allocated(state, Uninitialized))
    case Then(Declare(id, _, _), rest) => AllocateLexical(rest, env[id := |state.store|], Allocated(state, Uninitialized))
    case Then(_, rest) => AllocateLexical(rest, env, state)
  }

  /** Function declarations have their value from the start of the block. */
  function DeclareFunctions(stmts: Stmts, env: Env, state: State): State {
    match stmts
    case End => state
    case Then(Declare(id, params, body), rest) =>
      DeclareFunctions(rest, env,
        if id in env && env[id] < |state.store| then state.(store := state.store[env[id] := Closure(params, body, env)]) else state)
    case Then(_, rest) => DeclareFunctions(rest, env, state)
  }

  function EnterBlock(stmts: Stmts, env: Env, state: State): (Env, State) {
    var (env1, state1) := AllocateLexical(stmts, env, state);
    (env1, DeclareFunctions(stmts, env1, state1))
  }

  function EnterBody(params: Params, body: Stmts, env: Env, state: State): (Env, State) {
    var (env1, state1) := AllocateVars(body, ParamNames(params), env, state);
    EnterBlock(body, env1, state1)
  }

  // ---------- evaluation ----------

  function EvalExpr(e: Expr, env: Env, state: State, fuel: nat): Outcome
    decreases fuel, e, 0
  {
    match e
    case Number(n) => Normal(Num(n), state)
    case Text(text) => Normal(Str(text), state)
    case Name(id) => Lookup(id, env, state)
    case Function(params, body) => Normal(Closure(params, body, env), state)
    case Record(props) => EvalProps(props, env, state, fuel)
    case Get(target, key) =>
      (match EvalExpr(target, env, state, fuel)
       case Normal(Fields(pairs), after) => Normal(FieldOf(pairs, key), after)
       case Normal(Undefined, after) => Thrown(after)
       case Normal(_, after) => Normal(Undefined, after)
       case other => other)
    case Assign(id, value) =>
      (match EvalExpr(value, env, state, fuel)
       case Normal(v, after) => Assigned(id, v, env, after)
       case other => other)
    case Call(callee, args) => CallWith(EvalExpr(callee, env, state, fuel), args, env, fuel)
  }

  /** Each call takes one unit of fuel. */
  function CallWith(callee: Outcome, args: Args, env: Env, fuel: nat): Outcome
    decreases fuel, args, 1
  {
    match callee
    case Normal(f, after) =>
      (match EvalArgs(args, env, after, fuel)
       case Values(values, ready) => if fuel == 0 then OutOfFuel else Apply(f, values, ready, fuel - 1)
       case Failed(outcome) => outcome)
    case other => other
  }

  function EvalArgs(args: Args, env: Env, state: State, fuel: nat): ArgsOutcome
    decreases fuel, args, 0
  {
    match args
    case NoArgs => Values([], state)
    case Arg(head, rest) =>
      match EvalExpr(head, env, state, fuel)
      case Normal(v, after) =>
        (match EvalArgs(rest, env, after, fuel)
         case Values(values, last) => Values([v] + values, last)
         case failed => failed)
      case other => Failed(other)
  }

  function EvalProps(props: Props, env: Env, state: State, fuel: nat): Outcome
    decreases fuel, props, 0
  {
    match props
    case NoProps => Normal(Fields(NoPairs), state)
    case Shorthand(id, rest) => WithPair(id, Lookup(id, env, state), rest, env, fuel)
    case Prop(key, value, rest) => WithPair(key, EvalExpr(value, env, state, fuel), rest, env, fuel)
  }

  function WithPair(key: string, first: Outcome, rest: Props, env: Env, fuel: nat): Outcome
    decreases fuel, rest, 1
  {
    match first
    case Normal(v, after) =>
      (match EvalProps(rest, env, after, fuel)
       case Normal(Fields(pairs), last) => Normal(Fields(Pair(key, v, pairs)), last)
       case other => other)
    case other => other
  }

  /** Arguments go to parameters from left to right; a missing or undefined one takes the fallback. */
  function FillParams(params: Params, values: seq<Value>, env: Env, state: State, fuel: nat): Outcome
    decreases fuel, params, 0
  {
    var first := if values == [] then Undefined else values[0];
    var others := if values == [] then [] else values[1..];
    match params
    case NoParams => Normal(Undefined, state)
    case Plain(id, rest) => FillRest(Initialized(id, first, env, state), rest, others, env, fuel)
    case Defaulted(id, fallback, rest) =>
      if first != Undefined then FillRest(Initialized(id, first, env, state), rest, others, env, fuel)
      else
        match EvalExpr(fallback, env, state, fuel)
        case Normal(v, after) => FillRest(Initialized(id, v, env, after), rest, others, env, fuel)
        case other => other
  }

  function FillRest(first: Outcome, rest: Params, others: seq<Value>, env: Env, fuel: nat): Outcome
    decreases fuel, rest, 1
  {
    match first
    case Normal(_, after) => FillParams(rest, others, env, after, fuel)
    case other => other
  }

  function Apply(f: Value, values: seq<Value>, state: State, fuel: nat): Outcome
    decreases fuel
  {
    match f
    case Require =>
      var specifier := if values == [] then Undefined else values[0];
      Normal(Exports(specifier), state.(loaded := state.loaded + [specifier]))
    case Closure(params, body, outer) =>
      var (env, state1) := AllocateParams(params, outer, state);
      (match FillParams(params, values, env, state1, fuel)
       case Normal(_, state2) => Body(params, body, env, state2, fuel)
       case other => other)
    case _ => Thrown(state)
  }

  function Body(params: Params, body: Stmts, env: Env, state: State, fuel: nat): Outcome
    decreases fuel, body, 1
  {
    var (inner, state1) := EnterBody(params, body, env, state);
    match ExecStmts(body, inner, state1, fuel)
    case Returned(v, after) => Normal(v, after)
    case Normal(_, after) => Normal(Undefined, after)
    case other => other
  }

  function ExecStmt(stmt: Stmt, env: Env, state: State, fuel: nat): Outcome
    decreases fuel, stmt, 0
  {
    match stmt
    case Do(expr) => EvalExpr(expr, env, state, fuel)
    case Let(id, value) => Initialize(id, EvalExpr(value, env, state, fuel), env)
    case Var(id, value) => Initialize(id, EvalExpr(value, env, state, fuel), env)
    case Declare(_, _, _) => Normal(Undefined, state)
    case Block(body) =>
      var (inner, state1) := EnterBlock(body, env, state);
      ExecStmts(body, inner, state1, fuel)
    case Return(expr) =>
      match EvalExpr(expr, env, state, fuel)
      case Normal(v, after) => Returned(v, after)
      case other => other
  }

  function Initialize(id: string, outcome: Outcome, env: Env): Outcome {
    match outcome
    case Normal(v, after) => Initialized(id, v, env, after)
    case other => other
  }

  function ExecStmts(stmts: Stmts, env: Env, state: State, fuel: nat): Outcome
    decreases fuel, stmts, 0
  {
    match stmts
    case End => Normal(Undefined, state)
    case Then(head, rest) =>
      match ExecStmt(head, env, state, fuel)
      case Normal(_, after) => ExecStmts(rest, env, after, fuel)
      case other => other
  }

  /** A module's own names are hoisted like those of a function body. */
  function RunModule(stmts: Stmts, env: Env, state: State, fuel: nat): Outcome {
    Body(NoParams, stmts, env, state, fuel)
  }
}
