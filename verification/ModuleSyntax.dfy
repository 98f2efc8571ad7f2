/** A core of CommonJS modules: functions with defaulted parameters, blocks, let, hoisted var and
    function declarations, calls, records with shorthand properties and assignment. */
module ModuleSyntax {

  datatype Expr =
    | Number(n: nat)
    | Text(text: string)
    | Name(id: string)
    | Call(callee: Expr, args: Args)
    | Function(params: Params, body: Stmts)
    | Record(props: Props)
    | Get(target: Expr, key: string)
    | Assign(id: string, value: Expr)

  datatype Args = NoArgs | Arg(head: Expr, rest: Args)

  datatype Params =
    | NoParams
    | Plain(id: string, rest: Params)
    | Defaulted(id: string, fallback: Expr, rest: Params)

  datatype Props =
    | NoProps
    | Shorthand(id: string, rest: Props)
    | Prop(key: string, value: Expr, rest: Props)

  datatype Stmt =
    | Do(expr: Expr)
    | Let(id: string, value: Expr)
    | Var(id: string, value: Expr)
    | Block(body: Stmts)
    | Declare(id: string, params: Params, body: Stmts)
    | Return(expr: Expr)

  datatype Stmts = End | Then(head: Stmt, rest: Stmts)

  const REQUIRE: string := "require"

  // ---------- what a scope binds ----------

  function ParamNames(params: Params): set<string> {
    match params
    case NoParams => {}
    case Plain(id, rest) => {id} + ParamNames(rest)
    case Defaulted(id, _, rest) => {id} + ParamNames(rest)
  }

  /** The names of let and of function declarations of this block, not of nested ones. */
  function Lexical(stmts: Stmts): set<string> {
    match stmts
    case End => {}
    case Then(Let(id, _), rest) => {id} + Lexical(rest)
    case Then(Declare(id, _, _), rest) => {id} + Lexical(rest)
    case Then(_, rest) => Lexical(rest)
  }

  /** The names that var hoists out of nested blocks to the function. */
  function Hoisted(stmts: Stmts): set<string> {
    match stmts
    case End => {}
    case Then(Var(id, _), rest) => {id} + Hoisted(rest)
    case Then(Block(body), rest) => Hoisted(body) + Hoisted(rest)
    case Then(_, rest) => Hoisted(rest)
  }

  /** The name is bound in the parameters of a function, or was outside. */
  predicate BoundInParams(params: Params, bound: bool) { bound || REQUIRE in ParamNames(params) }

  predicate BoundInBody(params: Params, body: Stmts, bound: bool) {
    BoundInParams(params, bound) || REQUIRE in Hoisted(body) || REQUIRE in Lexical(body)
  }

  predicate BoundInBlock(body: Stmts, bound: bool) { bound || REQUIRE in Lexical(body) }

  // ---------- names ----------

  predicate MentionsExpr(e: Expr, name: string) {
    match e
    case Number(_) => false
    case Text(_) => false
    case Name(id) => id == name
    case Call(callee, args) => MentionsExpr(callee, name) || MentionsArgs(args, name)
    case Function(params, body) => MentionsParams(params, name) || MentionsStmts(body, name)
    case Record(props) => MentionsProps(props, name)
    case Get(target, _) => MentionsExpr(target, name)
    case Assign(id, value) => id == name || MentionsExpr(value, name)
  }

  predicate MentionsArgs(args: Args, name: string) {
    match args
    case NoArgs => false
    case Arg(head, rest) => MentionsExpr(head, name) || MentionsArgs(rest, name)
  }

  predicate MentionsParams(params: Params, name: string) {
    match params
    case NoParams => false
    case Plain(id, rest) => id == name || MentionsParams(rest, name)
    case Defaulted(id, fallback, rest) => id == name || MentionsExpr(fallback, name) || MentionsParams(rest, name)
  }

  predicate MentionsProps(props: Props, name: string) {
    match props
    case NoProps => false
    case Shorthand(id, rest) => id == name || MentionsProps(rest, name)
    case Prop(_, value, rest) => MentionsExpr(value, name) || MentionsProps(rest, name)
  }

  predicate MentionsStmt(stmt: Stmt, name: string) {
    match stmt
    case Do(expr) => MentionsExpr(expr, name)
    case Let(id, value) => id == name || MentionsExpr(value, name)
    case Var(id, value) => id == name || MentionsExpr(value, name)
    case Block(body) => MentionsStmts(body, name)
    case Declare(id, params, body) => id == name || MentionsParams(params, name) || MentionsStmts(body, name)
    case Return(expr) => MentionsExpr(expr, name)
  }

  predicate MentionsStmts(stmts: Stmts, name: string) {
    match stmts
    case End => false
    case Then(head, rest) => MentionsStmt(head, name) || MentionsStmts(rest, name)
  }

  // ---------- writes ----------

  /** The wrapper's require is assigned somewhere: an assignment whose name no enclosing
      declaration binds. */
  predicate WritesExpr(e: Expr, bound: bool) {
    match e
    case Number(_) => false
    case Text(_) => false
    case Name(_) => false
    case Call(callee, args) => WritesExpr(callee, bound) || WritesArgs(args, bound)
    case Function(params, body) =>
      WritesParams(params, BoundInParams(params, bound)) || WritesStmts(body, BoundInBody(params, body, bound))
    case Record(props) => WritesProps(props, bound)
    case Get(target, _) => WritesExpr(target, bound)
    case Assign(id, value) => (id == REQUIRE && !bound) || WritesExpr(value, bound)
  }

  predicate WritesArgs(args: Args, bound: bool) {
    match args
    case NoArgs => false
    case Arg(head, rest) => WritesExpr(head, bound) || WritesArgs(rest, bound)
  }

  predicate WritesParams(params: Params, bound: bool) {
    match params
    case NoParams => false
    case Plain(_, rest) => WritesParams(rest, bound)
    case Defaulted(_, fallback, rest) => WritesExpr(fallback, bound) || WritesParams(rest, bound)
  }

  predicate WritesProps(props: Props, bound: bool) {
    match props
    case NoProps => false
    case Shorthand(_, rest) => WritesProps(rest, bound)
    case Prop(_, value, rest) => WritesExpr(value, bound) || WritesProps(rest, bound)
  }

  predicate WritesStmt(stmt: Stmt, bound: bool) {
    match stmt
    case Do(expr) => WritesExpr(expr, bound)
    case Let(_, value) => WritesExpr(value, bound)
    case Var(_, value) => WritesExpr(value, bound)
    case Block(body) => WritesStmts(body, BoundInBlock(body, bound))
    case Declare(_, params, body) =>
      WritesParams(params, BoundInParams(params, bound)) || WritesStmts(body, BoundInBody(params, body, bound))
    case Return(expr) => WritesExpr(expr, bound)
  }

  predicate WritesStmts(stmts: Stmts, bound: bool) {
    match stmts
    case End => false
    case Then(head, rest) => WritesStmt(head, bound) || WritesStmts(rest, bound)
  }

  /** A module never writes the wrapper's require: it declares no var of that name for the module
      itself, and assigns the name only where a declaration binds it. */
  predicate LeavesRequireAlone(stmts: Stmts) {
    REQUIRE !in Hoisted(stmts) && !WritesStmts(stmts, BoundInBlock(stmts, false))
  }

  // ---------- the rewrite ----------

  predicate IsStaticSpecifier(args: Args) { args.Arg? && args.head.Text? }

  /** Call of the wrapper's require with a literal, which the bundler resolves by itself. */
  predicate IsStaticCall(callee: Expr, args: Args) { callee == Name(REQUIRE) && IsStaticSpecifier(args) }

  function RewriteExpr(e: Expr, bound: bool, helper: string): Expr {
    match e
    case Number(_) => e
    case Text(_) => e
    case Name(id) => if id == REQUIRE && !bound then Name(helper) else e
    case Call(callee, args) =>
      Call(if IsStaticCall(callee, args) then callee else RewriteExpr(callee, bound, helper), RewriteArgs(args, bound, helper))
    case Function(params, body) =>
      Function(RewriteParams(params, BoundInParams(params, bound), helper), RewriteStmts(body, BoundInBody(params, body, bound), helper))
    case Record(props) => Record(RewriteProps(props, bound, helper))
    case Get(target, key) => Get(RewriteExpr(target, bound, helper), key)
    case Assign(id, value) => Assign(id, RewriteExpr(value, bound, helper))
  }

  function RewriteArgs(args: Args, bound: bool, helper: string): Args {
    match args
    case NoArgs => NoArgs
    case Arg(head, rest) => Arg(RewriteExpr(head, bound, helper), RewriteArgs(rest, bound, helper))
  }

  function RewriteParams(params: Params, bound: bool, helper: string): Params {
    match params
    case NoParams => NoParams
    case Plain(id, rest) => Plain(id, RewriteParams(rest, bound, helper))
    case Defaulted(id, fallback, rest) => Defaulted(id, RewriteExpr(fallback, bound, helper), RewriteParams(rest, bound, helper))
  }

  function RewriteProps(props: Props, bound: bool, helper: string): Props {
    match props
    case NoProps => NoProps
    case Shorthand(id, rest) =>
      if id == REQUIRE && !bound then Prop(id, Name(helper), RewriteProps(rest, bound, helper))
      else Shorthand(id, RewriteProps(rest, bound, helper))
    case Prop(key, value, rest) => Prop(key, RewriteExpr(value, bound, helper), RewriteProps(rest, bound, helper))
  }

  function RewriteStmt(stmt: Stmt, bound: bool, helper: string): Stmt {
    match stmt
    case Do(expr) => Do(RewriteExpr(expr, bound, helper))
    case Let(id, value) => Let(id, RewriteExpr(value, bound, helper))
    case Var(id, value) => Var(id, RewriteExpr(value, bound, helper))
    case Block(body) => Block(RewriteStmts(body, BoundInBlock(body, bound), helper))
    case Declare(id, params, body) =>
      Declare(id, RewriteParams(params, BoundInParams(params, bound), helper), RewriteStmts(body, BoundInBody(params, body, bound), helper))
    case Return(expr) => Return(RewriteExpr(expr, bound, helper))
  }

  function RewriteStmts(stmts: Stmts, bound: bool, helper: string): Stmts {
    match stmts
    case End => End
    case Then(head, rest) => Then(RewriteStmt(head, bound, helper), RewriteStmts(rest, bound, helper))
  }

  /** The module's own block binds what its let and function declarations bind. */
  function RewriteModule(stmts: Stmts, helper: string): Stmts { RewriteStmts(stmts, BoundInBlock(stmts, false), helper) }
}
