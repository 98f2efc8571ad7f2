/** specializeCommonJsRendererModule (src/client-prerender.ts) as a whole: from a module's text to the
    text with its replacements and the inserted helper. */
module RendererModule {
  import opened ModuleSyntax
  import opened ModuleMeaning
  import opened TextEdits
  import opened RequireMeaning
  import opened RequireRewrite
  import ScopeCollection

  // ---------- a name that is used is in the text ----------

  lemma {:induction false} ExprContains(e: Expr, name: string)
    requires MentionsExpr(e, name)
    ensures Contains(PrintExpr(e), name)
    decreases e
  {
    hide Contains;
    match e
    case Name(id) => ContainsItself(name);
    case Call(callee, args) =>
      if MentionsExpr(callee, name) {
        ExprContains(callee, name);
        ContainsLeft(PrintExpr(callee), "(" + (PrintArgs(args) + ")"), name);
      } else {
        ArgsContain(args, name);
        ContainsMiddle("(", PrintArgs(args), ")", name);
        ContainsRight(PrintExpr(callee), "(" + (PrintArgs(args) + ")"), name);
      }
    case Function(params, body) =>
      if MentionsParams(params, name) { ParamsContain(params, name); } else { StmtsContain(body, name); }
      FunctionContains("(function (", params, body, "})", name);
    case Record(props) =>
      PropsContain(props, name);
      ContainsMiddle("({", PrintProps(props), "})", name);
    case Get(target, key) =>
      ExprContains(target, name);
      ContainsLeft(PrintExpr(target), "." + key, name);
    case Assign(id, value) =>
      if id == name { IdContains("(", id, "=", PrintExpr(value) + ")"); } else { ExprContains(value, name); ContainsMiddle("(" + id + "=", PrintExpr(value), ")", name); }
  }

  lemma IdContains(front: string, id: string, mark: string, rest: string)
    ensures Contains((front + id + mark) + rest, id)
  {
    hide Contains;
    ContainsItself(id);
    ContainsMiddle(front, id, mark, id);
    ContainsLeft(front + id + mark, rest, id);
  }

  lemma FunctionContains(front: string, params: Params, body: Stmts, close: string, name: string)
    requires Contains(PrintParams(params), name) || Contains(PrintStmts(body), name)
    ensures Contains(front + (PrintParams(params) + ("){" + (PrintStmts(body) + close))), name)
  {
    hide Contains;
    var tail := "){" + (PrintStmts(body) + close);
    if Contains(PrintParams(params), name) {
      ContainsLeft(PrintParams(params), tail, name);
    } else {
      ContainsMiddle("){", PrintStmts(body), close, name);
      ContainsRight(PrintParams(params), tail, name);
    }
    ContainsRight(front, PrintParams(params) + tail, name);
  }

  lemma {:induction false} ArgsContain(args: Args, name: string)
    requires MentionsArgs(args, name)
    ensures Contains(PrintArgs(args), name)
    decreases args
  {
    hide Contains;
    if MentionsExpr(args.head, name) {
      ExprContains(args.head, name);
      ContainsLeft(PrintExpr(args.head), "," + PrintArgs(args.rest), name);
    } else {
      ArgsContain(args.rest, name);
      ContainsRight(",", PrintArgs(args.rest), name);
      ContainsRight(PrintExpr(args.head), "," + PrintArgs(args.rest), name);
    }
  }

  lemma {:induction false} ParamsContain(params: Params, name: string)
    requires MentionsParams(params, name)
    ensures Contains(PrintParams(params), name)
    decreases params
  {
    hide Contains;
    match params
    case Plain(id, rest) =>
      if id == name { ContainsItself(id); ContainsLeft(id, ",", name); ContainsLeft(id + ",", PrintParams(rest), name); }
      else { ParamsContain(rest, name); ContainsRight(id + ",", PrintParams(rest), name); }
    case Defaulted(id, fallback, rest) =>
      var tail := PrintExpr(fallback) + ("," + PrintParams(rest));
      if id == name {
        ContainsItself(id);
        ContainsLeft(id, "=", name);
        ContainsLeft(id + "=", tail, name);
      } else {
        if MentionsExpr(fallback, name) {
          ExprContains(fallback, name);
          ContainsLeft(PrintExpr(fallback), "," + PrintParams(rest), name);
        } else {
          ParamsContain(rest, name);
          ContainsRight(",", PrintParams(rest), name);
          ContainsRight(PrintExpr(fallback), "," + PrintParams(rest), name);
        }
        ContainsRight(id + "=", tail, name);
      }
  }

  lemma {:induction false} PropsContain(props: Props, name: string)
    requires MentionsProps(props, name)
    ensures Contains(PrintProps(props), name)
    decreases props
  {
    hide Contains;
    match props
    case Shorthand(id, rest) =>
      if id == name { ContainsItself(id); ContainsLeft(id, "," + PrintProps(rest), name); }
      else { PropsContain(rest, name); ContainsRight(",", PrintProps(rest), name); ContainsRight(id, "," + PrintProps(rest), name); }
    case Prop(key, value, rest) =>
      var tail := PrintExpr(value) + ("," + PrintProps(rest));
      if MentionsExpr(value, name) {
        ExprContains(value, name);
        ContainsLeft(PrintExpr(value), "," + PrintProps(rest), name);
      } else {
        PropsContain(rest, name);
        ContainsRight(",", PrintProps(rest), name);
        ContainsRight(PrintExpr(value), "," + PrintProps(rest), name);
      }
      ContainsRight(key + ": ", tail, name);
  }

  lemma {:induction false} StmtContains(stmt: Stmt, name: string)
    requires MentionsStmt(stmt, name)
    ensures Contains(PrintStmt(stmt), name)
    decreases stmt
  {
    hide Contains;
    match stmt
    case Do(expr) => ExprContains(expr, name); ContainsLeft(PrintExpr(expr), ";", name);
    case Let(id, value) =>
      if id == name { IdContains("let ", id, "=", PrintExpr(value) + ";"); } else { ExprContains(value, name); ContainsMiddle("let " + id + "=", PrintExpr(value), ";", name); }
    case Var(id, value) =>
      if id == name { IdContains("var ", id, "=", PrintExpr(value) + ";"); } else { ExprContains(value, name); ContainsMiddle("var " + id + "=", PrintExpr(value), ";", name); }
    case Block(body) => StmtsContain(body, name); ContainsMiddle("{", PrintStmts(body), "}", name);
    case Declare(id, params, body) =>
      if id == name { IdContains("function ", id, "(", PrintParams(params) + ("){" + (PrintStmts(body) + "}"))); }
      else {
        if MentionsParams(params, name) { ParamsContain(params, name); } else { StmtsContain(body, name); }
        FunctionContains("function " + id + "(", params, body, "}", name);
      }
    case Return(expr) => ExprContains(expr, name); ContainsMiddle("return ", PrintExpr(expr), ";", name);
  }

  lemma {:induction false} StmtsContain(stmts: Stmts, name: string)
    requires MentionsStmts(stmts, name)
    ensures Contains(PrintStmts(stmts), name)
    decreases stmts
  {
    hide Contains;
    if MentionsStmt(stmts.head, name) {
      StmtContains(stmts.head, name);
      ContainsLeft(PrintStmt(stmts.head), PrintStmts(stmts.rest), name);
    } else {
      StmtsContain(stmts.rest, name);
      ContainsRight(PrintStmt(stmts.head), PrintStmts(stmts.rest), name);
    }
  }

  // ---------- no use is left ----------

  /** The module's require is used other than as the callee of a call with a literal. */
  predicate UsesExpr(e: Expr, bound: bool) {
    match e
    case Number(_) => false
    case Text(_) => false
    case Name(id) => id == REQUIRE && !bound
    case Call(callee, args) =>
      if callee == Name(REQUIRE) && args.Arg? && args.head.Text? then UsesArgs(args.rest, bound)
      else UsesExpr(callee, bound) || UsesArgs(args, bound)
    case Function(params, body) => UsesParams(params, BoundInParams(params, bound)) || UsesStmts(body, BoundInBody(params, body, bound))
    case Record(props) => UsesProps(props, bound)
    case Get(target, _) => UsesExpr(target, bound)
    case Assign(_, value) => UsesExpr(value, bound)
  }

  predicate UsesArgs(args: Args, bound: bool) {
    args.Arg? && (UsesExpr(args.head, bound) || UsesArgs(args.rest, bound))
  }

  predicate UsesParams(params: Params, bound: bool) {
    match params
    case NoParams => false
    case Plain(_, rest) => UsesParams(rest, bound)
    case Defaulted(_, fallback, rest) => UsesExpr(fallback, bound) || UsesParams(rest, bound)
  }

  predicate UsesProps(props: Props, bound: bool) {
    match props
    case NoProps => false
    case Shorthand(id, rest) => (id == REQUIRE && !bound) || UsesProps(rest, bound)
    case Prop(_, value, rest) => UsesExpr(value, bound) || UsesProps(rest, bound)
  }

  predicate UsesStmt(stmt: Stmt, bound: bool) {
    match stmt
    case Do(expr) => UsesExpr(expr, bound)
    case Let(_, value) => UsesExpr(value, bound)
    case Var(_, value) => UsesExpr(value, bound)
    case Block(body) => UsesStmts(body, BoundInBlock(body, bound))
    case Declare(_, params, body) => UsesParams(params, BoundInParams(params, bound)) || UsesStmts(body, BoundInBody(params, body, bound))
    case Return(expr) => UsesExpr(expr, bound)
  }

  predicate UsesStmts(stmts: Stmts, bound: bool) {
    stmts.Then? && (UsesStmt(stmts.head, bound) || UsesStmts(stmts.rest, bound))
  }

  lemma {:induction false} DeclarationsStay(stmts: Stmts, bound: bool, helper: string)
    ensures Lexical(RewriteStmts(stmts, bound, helper)) == Lexical(stmts) && Hoisted(RewriteStmts(stmts, bound, helper)) == Hoisted(stmts)
    decreases stmts
  {
    if stmts.Then? {
      DeclarationsStay(stmts.rest, bound, helper);
      if stmts.head.Block? { DeclarationsStay(stmts.head.body, BoundInBlock(stmts.head.body, bound), helper); }
    }
  }

  lemma BoundsStay(params: Params, body: Stmts, p: bool, b: bool, bound: bool, helper: string)
    ensures BoundInParams(RewriteParams(params, p, helper), bound) == BoundInParams(params, bound)
    ensures BoundInBody(RewriteParams(params, p, helper), RewriteStmts(body, b, helper), bound) == BoundInBody(params, body, bound)
    ensures BoundInBlock(RewriteStmts(body, b, helper), bound) == BoundInBlock(body, bound)
  {
    NamesStay(params, p, helper);
    DeclarationsStay(body, b, helper);
  }

  lemma {:induction false} ExprReplaced(e: Expr, bound: bool, helper: string)
    requires helper != REQUIRE
    ensures !UsesExpr(RewriteExpr(e, bound, helper), bound)
    decreases e
  {
    match e
    case Call(callee, args) =>
      ExprReplaced(callee, bound, helper);
      ArgsReplaced(args, bound, helper);
    case Function(params, body) =>
      BoundsStay(params, body, BoundInParams(params, bound), BoundInBody(params, body, bound), bound, helper);
      ParamsReplaced(params, BoundInParams(params, bound), helper);
      StmtsReplaced(body, BoundInBody(params, body, bound), helper);
    case Record(props) => PropsReplaced(props, bound, helper);
    case Get(target, _) => ExprReplaced(target, bound, helper);
    case Assign(_, value) => ExprReplaced(value, bound, helper);
    case _ =>
  }

  lemma {:induction false} ArgsReplaced(args: Args, bound: bool, helper: string)
    requires helper != REQUIRE
    ensures !UsesArgs(RewriteArgs(args, bound, helper), bound)
    ensures RewriteArgs(args, bound, helper).Arg? <==> args.Arg?
    ensures args.Arg? ==> (RewriteArgs(args, bound, helper).head.Text? <==> args.head.Text?)
    decreases args
  {
    if args.Arg? {
      ExprReplaced(args.head, bound, helper);
      ArgsReplaced(args.rest, bound, helper);
    }
  }

  lemma {:induction false} ParamsReplaced(params: Params, bound: bool, helper: string)
    requires helper != REQUIRE
    ensures !UsesParams(RewriteParams(params, bound, helper), bound)
    decreases params
  {
    match params
    case NoParams =>
    case Plain(_, rest) => ParamsReplaced(rest, bound, helper);
    case Defaulted(_, fallback, rest) => ExprReplaced(fallback, bound, helper); ParamsReplaced(rest, bound, helper);
  }

  lemma {:induction false} PropsReplaced(props: Props, bound: bool, helper: string)
    requires helper != REQUIRE
    ensures !UsesProps(RewriteProps(props, bound, helper), bound)
    decreases props
  {
    match props
    case NoProps =>
    case Shorthand(_, rest) => PropsReplaced(rest, bound, helper);
    case Prop(_, value, rest) => ExprReplaced(value, bound, helper); PropsReplaced(rest, bound, helper);
  }

  lemma {:induction false} StmtReplaced(stmt: Stmt, bound: bool, helper: string)
    requires helper != REQUIRE
    ensures !UsesStmt(RewriteStmt(stmt, bound, helper), bound)
    decreases stmt
  {
    match stmt
    case Do(expr) => ExprReplaced(expr, bound, helper);
    case Let(_, value) => ExprReplaced(value, bound, helper);
    case Var(_, value) => ExprReplaced(value, bound, helper);
    case Block(body) =>
      BoundsStay(NoParams, body, bound, BoundInBlock(body, bound), bound, helper);
      StmtsReplaced(body, BoundInBlock(body, bound), helper);
    case Declare(_, params, body) =>
      BoundsStay(params, body, BoundInParams(params, bound), BoundInBody(params, body, bound), bound, helper);
      ParamsReplaced(params, BoundInParams(params, bound), helper);
      StmtsReplaced(body, BoundInBody(params, body, bound), helper);
    case Return(expr) => ExprReplaced(expr, bound, helper);
  }

  lemma {:induction false} StmtsReplaced(stmts: Stmts, bound: bool, helper: string)
    requires helper != REQUIRE
    ensures !UsesStmts(RewriteStmts(stmts, bound, helper), bound)
    decreases stmts
  {
    if stmts.Then? {
      StmtReplaced(stmts.head, bound, helper);
      StmtsReplaced(stmts.rest, bound, helper);
    }
  }

  // ---------- exactly the uses are replaced ----------

  lemma {:induction false} ExprHasEdits(e: Expr, at: nat, chain: Chain, helper: string)
    ensures EditsExpr(e, at, chain, helper) != [] <==> UsesExpr(e, ScopeBinds(chain, REQUIRE))
    decreases e
  {
    hide ScopeBinds;
    match e
    case Call(callee, args) =>
      ExprHasEdits(callee, at, chain, helper);
      ArgsHaveEdits(args, at + |PrintExpr(callee)| + 1, chain, helper);
    case Function(params, body) =>
      var start := at + |"(function ("|;
      ChainsAgree(chain, params, body);
      ParamsHaveEdits(params, start, InParams(chain, params), helper);
      StmtsHaveEdits(body, start + |PrintParams(params)| + 2, InBody(chain, params, body), helper);
    case Record(props) => PropsHaveEdits(props, at + |"({"|, chain, helper);
    case Get(target, _) => ExprHasEdits(target, at, chain, helper);
    case Assign(id, value) => ExprHasEdits(value, at + |"(" + id + "="|, chain, helper);
    case _ =>
  }

  lemma {:induction false} ArgsHaveEdits(args: Args, at: nat, chain: Chain, helper: string)
    ensures EditsArgs(args, at, chain, helper) != [] <==> UsesArgs(args, ScopeBinds(chain, REQUIRE))
    decreases args
  {
    hide ScopeBinds;
    if args.Arg? {
      ExprHasEdits(args.head, at, chain, helper);
      ArgsHaveEdits(args.rest, at + |PrintExpr(args.head)| + 1, chain, helper);
    }
  }

  lemma {:induction false} ParamsHaveEdits(params: Params, at: nat, chain: Chain, helper: string)
    ensures EditsParams(params, at, chain, helper) != [] <==> UsesParams(params, ScopeBinds(chain, REQUIRE))
    decreases params
  {
    hide ScopeBinds;
    match params
    case NoParams =>
    case Plain(id, rest) => ParamsHaveEdits(rest, at + |id + ","|, chain, helper);
    case Defaulted(id, fallback, rest) =>
      var value := at + |id + "="|;
      ExprHasEdits(fallback, value, chain, helper);
      ParamsHaveEdits(rest, value + |PrintExpr(fallback)| + 1, chain, helper);
  }

  lemma {:induction false} PropsHaveEdits(props: Props, at: nat, chain: Chain, helper: string)
    ensures EditsProps(props, at, chain, helper) != [] <==> UsesProps(props, ScopeBinds(chain, REQUIRE))
    decreases props
  {
    hide ScopeBinds;
    match props
    case NoProps =>
    case Shorthand(id, rest) => PropsHaveEdits(rest, at + |id| + 1, chain, helper);
    case Prop(key, value, rest) =>
      var start := at + |key + ": "|;
      ExprHasEdits(value, start, chain, helper);
      PropsHaveEdits(rest, start + |PrintExpr(value)| + 1, chain, helper);
  }

  lemma {:induction false} StmtHasEdits(stmt: Stmt, at: nat, chain: Chain, helper: string)
    ensures EditsStmt(stmt, at, chain, helper) != [] <==> UsesStmt(stmt, ScopeBinds(chain, REQUIRE))
    decreases stmt
  {
    hide ScopeBinds;
    match stmt
    case Do(expr) => ExprHasEdits(expr, at, chain, helper);
    case Let(id, value) => ExprHasEdits(value, at + |"let " + id + "="|, chain, helper);
    case Var(id, value) => ExprHasEdits(value, at + |"var " + id + "="|, chain, helper);
    case Block(body) =>
      ChainsAgree(chain, NoParams, body);
      StmtsHaveEdits(body, at + 1, InBlock(chain, body), helper);
    case Declare(id, params, body) =>
      var start := at + |"function " + id + "("|;
      ChainsAgree(chain, params, body);
      ParamsHaveEdits(params, start, InParams(chain, params), helper);
      StmtsHaveEdits(body, start + |PrintParams(params)| + 2, InBody(chain, params, body), helper);
    case Return(expr) => ExprHasEdits(expr, at + |"return "|, chain, helper);
  }

  lemma {:induction false} StmtsHaveEdits(stmts: Stmts, at: nat, chain: Chain, helper: string)
    ensures EditsStmts(stmts, at, chain, helper) != [] <==> UsesStmts(stmts, ScopeBinds(chain, REQUIRE))
    decreases stmts
  {
    hide ScopeBinds;
    if stmts.Then? {
      StmtHasEdits(stmts.head, at, chain, helper);
      StmtsHaveEdits(stmts.rest, at + |PrintStmt(stmts.head)|, chain, helper);
    }
  }

  // ---------- calls with a literal stay ----------

  /** The literals with which the module's require is called, in the order of the text. */
  function LiteralsExpr(e: Expr, bound: bool): seq<string> {
    match e
    case Number(_) => []
    case Text(_) => []
    case Name(_) => []
    case Call(callee, args) =>
      if callee == Name(REQUIRE) && !bound && args.Arg? && args.head.Text? then [args.head.text] + LiteralsArgs(args.rest, bound)
      else LiteralsExpr(callee, bound) + LiteralsArgs(args, bound)
    case Function(params, body) => LiteralsParams(params, BoundInParams(params, bound)) + LiteralsStmts(body, BoundInBody(params, body, bound))
    case Record(props) => LiteralsProps(props, bound)
    case Get(target, _) => LiteralsExpr(target, bound)
    case Assign(_, value) => LiteralsExpr(value, bound)
  }

  function LiteralsArgs(args: Args, bound: bool): seq<string> {
    match args
    case NoArgs => []
    case Arg(head, rest) => LiteralsExpr(head, bound) + LiteralsArgs(rest, bound)
  }

  function LiteralsParams(params: Params, bound: bool): seq<string> {
    match params
    case NoParams => []
    case Plain(_, rest) => LiteralsParams(rest, bound)
    case Defaulted(_, fallback, rest) => LiteralsExpr(fallback, bound) + LiteralsParams(rest, bound)
  }

  function LiteralsProps(props: Props, bound: bool): seq<string> {
    match props
    case NoProps => []
    case Shorthand(_, rest) => LiteralsProps(rest, bound)
    case Prop(_, value, rest) => LiteralsExpr(value, bound) + LiteralsProps(rest, bound)
  }

  function LiteralsStmt(stmt: Stmt, bound: bool): seq<string> {
    match stmt
    case Do(expr) => LiteralsExpr(expr, bound)
    case Let(_, value) => LiteralsExpr(value, bound)
    case Var(_, value) => LiteralsExpr(value, bound)
    case Block(body) => LiteralsStmts(body, BoundInBlock(body, bound))
    case Declare(_, params, body) => LiteralsParams(params, BoundInParams(params, bound)) + LiteralsStmts(body, BoundInBody(params, body, bound))
    case Return(expr) => LiteralsExpr(expr, bound)
  }

  function LiteralsStmts(stmts: Stmts, bound: bool): seq<string> {
    match stmts
    case End => []
    case Then(head, rest) => LiteralsStmt(head, bound) + LiteralsStmts(rest, bound)
  }

  lemma {:induction false} ExprLiterals(e: Expr, bound: bool, helper: string)
    requires helper != REQUIRE
    ensures LiteralsExpr(RewriteExpr(e, bound, helper), bound) == LiteralsExpr(e, bound)
    decreases e
  {
    match e
    case Call(callee, args) =>
      ExprLiterals(callee, bound, helper);
      ArgsLiterals(args, bound, helper);
    case Function(params, body) =>
      BoundsStay(params, body, BoundInParams(params, bound), BoundInBody(params, body, bound), bound, helper);
      ParamsLiterals(params, BoundInParams(params, bound), helper);
      StmtsLiterals(body, BoundInBody(params, body, bound), helper);
    case Record(props) => PropsLiterals(props, bound, helper);
    case Get(target, _) => ExprLiterals(target, bound, helper);
    case Assign(_, value) => ExprLiterals(value, bound, helper);
    case _ =>
  }

  lemma {:induction false} ArgsLiterals(args: Args, bound: bool, helper: string)
    requires helper != REQUIRE
    ensures LiteralsArgs(RewriteArgs(args, bound, helper), bound) == LiteralsArgs(args, bound)
    ensures args.Arg? ==> LiteralsArgs(RewriteArgs(args.rest, bound, helper), bound) == LiteralsArgs(args.rest, bound)
    decreases args
  {
    if args.Arg? {
      ExprLiterals(args.head, bound, helper);
      ArgsLiterals(args.rest, bound, helper);
    }
  }

  lemma {:induction false} ParamsLiterals(params: Params, bound: bool, helper: string)
    requires helper != REQUIRE
    ensures LiteralsParams(RewriteParams(params, bound, helper), bound) == LiteralsParams(params, bound)
    decreases params
  {
    match params
    case NoParams =>
    case Plain(_, rest) => ParamsLiterals(rest, bound, helper);
    case Defaulted(_, fallback, rest) => ExprLiterals(fallback, bound, helper); ParamsLiterals(rest, bound, helper);
  }

  lemma {:induction false} PropsLiterals(props: Props, bound: bool, helper: string)
    requires helper != REQUIRE
    ensures LiteralsProps(RewriteProps(props, bound, helper), bound) == LiteralsProps(props, bound)
    decreases props
  {
    match props
    case NoProps =>
    case Shorthand(_, rest) => PropsLiterals(rest, bound, helper);
    case Prop(_, value, rest) => ExprLiterals(value, bound, helper); PropsLiterals(rest, bound, helper);
  }

  lemma {:induction false} StmtLiterals(stmt: Stmt, bound: bool, helper: string)
    requires helper != REQUIRE
    ensures LiteralsStmt(RewriteStmt(stmt, bound, helper), bound) == LiteralsStmt(stmt, bound)
    decreases stmt
  {
    match stmt
    case Do(expr) => ExprLiterals(expr, bound, helper);
    case Let(_, value) => ExprLiterals(value, bound, helper);
    case Var(_, value) => ExprLiterals(value, bound, helper);
    case Block(body) =>
      BoundsStay(NoParams, body, bound, BoundInBlock(body, bound), bound, helper);
      StmtsLiterals(body, BoundInBlock(body, bound), helper);
    case Declare(_, params, body) =>
      BoundsStay(params, body, BoundInParams(params, bound), BoundInBody(params, body, bound), bound, helper);
      ParamsLiterals(params, BoundInParams(params, bound), helper);
      StmtsLiterals(body, BoundInBody(params, body, bound), helper);
    case Return(expr) => ExprLiterals(expr, bound, helper);
  }

  lemma {:induction false} StmtsLiterals(stmts: Stmts, bound: bool, helper: string)
    requires helper != REQUIRE
    ensures LiteralsStmts(RewriteStmts(stmts, bound, helper), bound) == LiteralsStmts(stmts, bound)
    decreases stmts
  {
    if stmts.Then? {
      StmtLiterals(stmts.head, bound, helper);
      StmtsLiterals(stmts.rest, bound, helper);
    }
  }

  // ---------- the directive prologue ----------

  function Prologue(stmts: Stmts): Stmts {
    if stmts.Then? && stmts.head.Do? && stmts.head.expr.Text? then Then(stmts.head, Prologue(stmts.rest)) else End
  }

  function AfterPrologue(stmts: Stmts): Stmts {
    if stmts.Then? && stmts.head.Do? && stmts.head.expr.Text? then AfterPrologue(stmts.rest) else stmts
  }

  lemma {:induction false} PrologueIsFirst(stmts: Stmts)
    ensures PrintStmts(stmts) == PrintStmts(Prologue(stmts)) + PrintStmts(AfterPrologue(stmts))
  {
    hide PrintStmt;
    if stmts.Then? && stmts.head.Do? && stmts.head.expr.Text? {
      PrologueIsFirst(stmts.rest);
      assert PrintStmt(stmts.head) + (PrintStmts(Prologue(stmts.rest)) + PrintStmts(AfterPrologue(stmts.rest)))
          == (PrintStmt(stmts.head) + PrintStmts(Prologue(stmts.rest))) + PrintStmts(AfterPrologue(stmts.rest));
    }
  }

  function Appended(first: Stmts, rest: Stmts): Stmts {
    match first
    case End => rest
    case Then(head, more) => Then(head, Appended(more, rest))
  }

  predicate IsDirective(stmt: Stmt) { stmt.Do? && stmt.expr.Text? }

  predicate AllDirectives(stmts: Stmts) { stmts.Then? ==> IsDirective(stmts.head) && AllDirectives(stmts.rest) }

  /** The prologue is all of the directives that the module begins with. */
  lemma {:induction false} PrologueIsAllDirectives(stmts: Stmts)
    ensures Appended(Prologue(stmts), AfterPrologue(stmts)) == stmts && AllDirectives(Prologue(stmts))
    ensures AfterPrologue(stmts).Then? ==> !IsDirective(AfterPrologue(stmts).head)
  {
    if stmts.Then? && stmts.head.Do? && stmts.head.expr.Text? { PrologueIsAllDirectives(stmts.rest); }
  }

  lemma DirectiveStays(stmt: Stmt, at: nat, chain: Chain, helper: string)
    requires stmt.Do? && stmt.expr.Text?
    ensures EditsStmt(stmt, at, chain, helper) == [] && forall bound :: RewriteStmt(stmt, bound, helper) == stmt
  {
    assert EditsExpr(stmt.expr, at, chain, helper) == [] && forall bound :: RewriteExpr(stmt.expr, bound, helper) == stmt.expr;
  }

  lemma NoNewDirective(stmt: Stmt, bound: bool, helper: string)
    requires !(stmt.Do? && stmt.expr.Text?)
    ensures var after := RewriteStmt(stmt, bound, helper); !(after.Do? && after.expr.Text?)
  {
  }

  /** Nothing is replaced in the prologue. */
  lemma {:induction false} PrologueHasNoEdits(stmts: Stmts, at: nat, chain: Chain, helper: string)
    ensures EditsStmts(stmts, at, chain, helper) == EditsStmts(AfterPrologue(stmts), at + |PrintStmts(Prologue(stmts))|, chain, helper)
    ensures AfterPrologue(RewriteStmts(stmts, ScopeBinds(chain, REQUIRE), helper)) == RewriteStmts(AfterPrologue(stmts), ScopeBinds(chain, REQUIRE), helper)
    decreases stmts
  {
    if stmts.Then? && stmts.head.Do? && stmts.head.expr.Text? {
      PrologueHasNoEdits(stmts.rest, at + |PrintStmt(stmts.head)|, chain, helper);
      DirectiveStays(stmts.head, at, chain, helper);
    } else if stmts.Then? {
      NoNewDirective(stmts.head, ScopeBinds(chain, REQUIRE), helper);
    }
  }

  // ---------- the whole module ----------

  lemma RootBinds(stmts: Stmts)
    ensures ScopeBinds([RootScope(stmts)], REQUIRE) <==> BoundInBlock(stmts, false)
  {
    OneMoreScope([], RootScope(stmts), REQUIRE);
    assert [] + [RootScope(stmts)] == [RootScope(stmts)];
  }

  /** The text of the declaration that is inserted; createRequire gives the module's own require. */
  function HelperDeclaration(helper: string, moduleUrl: string): string {
    "const " + helper + " = require(\"node:module\").createRequire(" + moduleUrl + ");\n"
  }

  /** The text of a rewritten module: its prologue, the helper's declaration, and the rest rewritten. */
  function SpecializedText(stmts: Stmts, helper: string, declaration: string): string {
    PrintStmts(Prologue(stmts)) + (declaration + PrintStmts(AfterPrologue(RewriteModule(stmts, helper))))
  }

  lemma EditsAreProper(text: string, base: nat, edits: seq<Edit>, result: string)
    requires Edited(text, base, edits, result)
    ensures Proper(edits, base, base + |text|)
  {
    hide Substituted, Within;
    forall i | 0 <= i < |edits| ensures edits[i].start < edits[i].end {
      var e := edits[i];
      assert ReplacesRequire(text, base, e);
      assert |text[e.start - base..e.end - base]| == |REQUIRE|;
    }
  }

  /** Replacements in the rest of the text with an insertion in front of them. */
  lemma InsertionEdited(front: string, text: string, insertion: string, edits: seq<Edit>, result: string)
    requires Gives(text, |front|, edits, result)
    ensures Gives(front + text, 0, [Edit(|front|, |front|, insertion)] + edits, front + (insertion + result))
  {
    hide Gives;
    GivesOne("", |front|, insertion);
    GivesBoth("", text, |front|, [Edit(|front|, |front|, insertion)], edits, insertion, result);
    assert "" + text == text;
    GivesAfter(front, text, 0, [Edit(|front|, |front|, insertion)] + edits, insertion + result);
  }

  lemma ModuleEdited(stmts: Stmts, helper: string, declaration: string)
    ensures var offset, text := |PrintStmts(Prologue(stmts))|, PrintStmts(stmts);
            var edits := EditsStmts(stmts, 0, [RootScope(stmts)], helper);
            && Proper(edits, offset, |text|)
            && Gives(text, 0, edits, PrintStmts(RewriteModule(stmts, helper)))
            && Gives(text, 0, [Edit(offset, offset, declaration)] + edits, SpecializedText(stmts, helper, declaration))
  {
    hide Edited, EditsStmts, PrintStmts, RewriteStmts, ScopeBinds, RootScope, Gives, Proper;
    var chain := [RootScope(stmts)];
    var front, rest := PrintStmts(Prologue(stmts)), AfterPrologue(stmts);
    var edits := EditsStmts(stmts, 0, chain, helper);
    var result := PrintStmts(RewriteStmts(rest, ScopeBinds(chain, REQUIRE), helper));
    RootBinds(stmts);
    StmtsEdited(stmts, 0, chain, helper);
    PrologueIsFirst(stmts);
    PrologueHasNoEdits(stmts, 0, chain, helper);
    StmtsEdited(rest, |front|, chain, helper);
    EditedGives(PrintStmts(rest), |front|, edits, result);
    EditedGives(PrintStmts(stmts), 0, edits, PrintStmts(RewriteModule(stmts, helper)));
    EditsAreProper(PrintStmts(rest), |front|, edits, result);
    InsertionEdited(front, PrintStmts(rest), declaration, edits, result);
  }

  lemma EditedGives(text: string, base: nat, edits: seq<Edit>, result: string)
    requires Edited(text, base, edits, result)
    ensures Gives(text, base, edits, result)
  {
  }

  lemma NothingEdited(text: string, result: string)
    requires Gives(text, 0, [], result)
    ensures result == text
  {
  }

  /** The rewritten module, with the helper standing for the module's require, ends as the module does. */
  ghost predicate MeansTheSame(stmts: Stmts, helper: string) {
    forall fuel: nat :: RunModule(RewriteModule(stmts, helper), WithHelper(ModuleEnv(), helper), ModuleState(), fuel)
                     == RewrittenOutcome(RunModule(stmts, ModuleEnv(), ModuleState(), fuel), helper)
  }

  lemma SameMeaning(stmts: Stmts, helper: string)
    requires LeavesRequireAlone(stmts) && !MentionsStmts(stmts, helper) && helper != REQUIRE
    ensures MeansTheSame(stmts, helper)
  {
    hide LeavesRequireAlone, MentionsStmts, RewriteModule, RunModule;
    forall fuel: nat
      ensures RunModule(RewriteModule(stmts, helper), WithHelper(ModuleEnv(), helper), ModuleState(), fuel)
           == RewrittenOutcome(RunModule(stmts, ModuleEnv(), ModuleState(), fuel), helper)
    {
      RewriteKeepsMeaning(stmts, helper, fuel);
    }
  }

  /** moduleUrl is the module's URL as JSON prints it.  Replacements are collected, sorted and spliced.  A module without replacements keeps its text;
      any other becomes the text of the rewritten module with the helper declared after the
      prologue.  The helper is fresh, so it never stands for a name of the module.  A module that
      never writes require means the same after the rewrite, for every amount of fuel. */
  method Specialize(stmts: Stmts, moduleUrl: string) returns (contents: string, changed: bool, helper: string)
    ensures helper != REQUIRE && !MentionsStmts(stmts, helper) && !Contains(PrintStmts(stmts), helper)
    ensures changed ==>
              contents == PrintStmts(Prologue(stmts))
                          + (("const " + helper + " = require(\"node:module\").createRequire(" + moduleUrl + ");\n")
                             + PrintStmts(AfterPrologue(RewriteModule(stmts, helper))))
    ensures changed <==> UsesStmts(stmts, BoundInBlock(stmts, false))
    ensures !changed ==> contents == PrintStmts(stmts) == PrintStmts(RewriteModule(stmts, helper))
    ensures LeavesRequireAlone(stmts) ==> MeansTheSame(stmts, helper)
  {
    hide LeavesRequireAlone, PrintStmts, EditsStmts, RewriteStmts, Sorted, Substituted, Within, Proper, Contains, RootScope;
    var original := PrintStmts(stmts);
    ghost var n;
    helper, n := FreshHelper(original);
    if MentionsStmts(stmts, helper) { StmtsContain(stmts, helper); }
    if LeavesRequireAlone(stmts) { SameMeaning(stmts, helper); }
    var declaration := HelperDeclaration(helper, moduleUrl);
    ModuleEdited(stmts, helper, declaration);
    var replacements := ScopeCollection.CollectReplacements(stmts, helper);
    RootBinds(stmts);
    StmtsHaveEdits(stmts, 0, [RootScope(stmts)], helper);
    if replacements == [] {
      NothingEdited(original, PrintStmts(RewriteModule(stmts, helper)));
      return original, false, helper;
    }
    var offset := |PrintStmts(Prologue(stmts))|;
    var insertion := Edit(offset, offset, declaration);
    InsertionGoesLast(replacements, insertion, |original|);
    contents := SpliceAll(original, Sorted(replacements + [insertion]), [insertion] + replacements);
    changed := true;
  }

  /** The rewritten module never uses the wrapper's require except in calls with a literal. */
  lemma NoUseIsLeft(stmts: Stmts, helper: string)
    requires helper != REQUIRE
    ensures !UsesStmts(RewriteModule(stmts, helper), BoundInBlock(RewriteModule(stmts, helper), false))
  {
    DeclarationsStay(stmts, BoundInBlock(stmts, false), helper);
    StmtsReplaced(stmts, BoundInBlock(stmts, false), helper);
  }

  /** And it keeps every call of the wrapper's require with a literal, in its order. */
  lemma LiteralCallsStay(stmts: Stmts, helper: string)
    requires helper != REQUIRE
    ensures LiteralsStmts(RewriteModule(stmts, helper), BoundInBlock(RewriteModule(stmts, helper), false)) == LiteralsStmts(stmts, BoundInBlock(stmts, false))
  {
    DeclarationsStay(stmts, BoundInBlock(stmts, false), helper);
    StmtsLiterals(stmts, BoundInBlock(stmts, false), helper);
  }
}
