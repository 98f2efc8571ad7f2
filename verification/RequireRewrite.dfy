/** The source-to-source rewrite of specializeCommonJsRendererModule (src/client-prerender.ts) on the
    core language: scope chains, the replacements of require, the fresh helper name, and the text
    that splicing the replacements produces. */
module RequireRewrite {
  import opened ModuleSyntax
  import opened Numerals
  import opened TextEdits

  // ---------- module text ----------

  function PrintExpr(e: Expr): string {
    match e
    case Number(n) => Numeral(n, 10)
    case Text(text) => "\"" + text + "\""
    case Name(id) => id
    case Call(callee, args) => PrintExpr(callee) + ("(" + (PrintArgs(args) + ")"))
    case Function(params, body) => "(function (" + (PrintParams(params) + ("){" + (PrintStmts(body) + "})")))
    case Record(props) => "({" + (PrintProps(props) + "})")
    case Get(target, key) => PrintExpr(target) + ("." + key)
    case Assign(id, value) => ("(" + id + "=") + (PrintExpr(value) + ")")
  }

  function PrintArgs(args: Args): string {
    match args
    case NoArgs => ""
    case Arg(head, rest) => PrintExpr(head) + ("," + PrintArgs(rest))
  }

  function PrintParams(params: Params): string {
    match params
    case NoParams => ""
    case Plain(id, rest) => (id + ",") + PrintParams(rest)
    case Defaulted(id, fallback, rest) => (id + "=") + (PrintExpr(fallback) + ("," + PrintParams(rest)))
  }

  function PrintProps(props: Props): string {
    match props
    case NoProps => ""
    case Shorthand(id, rest) => id + ("," + PrintProps(rest))
    case Prop(key, value, rest) => (key + ": ") + (PrintExpr(value) + ("," + PrintProps(rest)))
  }

  function PrintStmt(stmt: Stmt): string {
    match stmt
    case Do(expr) => PrintExpr(expr) + ";"
    case Let(id, value) => ("let " + id + "=") + (PrintExpr(value) + ";")
    case Var(id, value) => ("var " + id + "=") + (PrintExpr(value) + ";")
    case Block(body) => "{" + (PrintStmts(body) + "}")
    case Declare(id, params, body) => ("function " + id + "(") + (PrintParams(params) + ("){" + (PrintStmts(body) + "}")))
    case Return(expr) => "return " + (PrintExpr(expr) + ";")
  }

  function PrintStmts(stmts: Stmts): string {
    match stmts
    case End => ""
    case Then(head, rest) => PrintStmt(head) + PrintStmts(rest)
  }

  // ---------- scope chains ----------

  /** The bindings of the scopes around a node, outermost first. */
  type Chain = seq<set<string>>

  /** rendererScopeBinds. */
  predicate ScopeBinds(chain: Chain, name: string) { exists i :: 0 <= i < |chain| && name in chain[i] }

  lemma OneMoreScope(chain: Chain, scope: set<string>, name: string)
    ensures ScopeBinds(chain + [scope], name) <==> ScopeBinds(chain, name) || name in scope
  {
    if ScopeBinds(chain, name) {
      var i :| 0 <= i < |chain| && name in chain[i];
      assert (chain + [scope])[i] == chain[i];
    }
    if name in scope { assert (chain + [scope])[|chain|] == scope; }
  }

  /** A function opens a scope for its parameters; its body adds one for hoisted names and one for
      the block itself, which the parameters' fallbacks do not see. */
  function InParams(chain: Chain, params: Params): Chain { chain + [ParamNames(params) + {"arguments"}] }

  function InBody(chain: Chain, params: Params, body: Stmts): Chain { InParams(chain, params) + [Hoisted(body)] + [Lexical(body)] }

  function InBlock(chain: Chain, body: Stmts): Chain { chain + [Lexical(body)] }

  const WRAPPER_NAMES: set<string> := {"require", "module", "exports", "__dirname", "__filename", "arguments"}

  /** The bindings of the module's own scope: a var does not shadow the wrapper's parameters. */
  function RootScope(stmts: Stmts): set<string> { Lexical(stmts) + (Hoisted(stmts) - WRAPPER_NAMES) }

  lemma ChainsAgree(chain: Chain, params: Params, body: Stmts)
    ensures ScopeBinds(InParams(chain, params), REQUIRE) <==> BoundInParams(params, ScopeBinds(chain, REQUIRE))
    ensures ScopeBinds(InBody(chain, params, body), REQUIRE) <==> BoundInBody(params, body, ScopeBinds(chain, REQUIRE))
    ensures ScopeBinds(InBlock(chain, body), REQUIRE) <==> BoundInBlock(body, ScopeBinds(chain, REQUIRE))
  {
    OneMoreScope(chain, ParamNames(params) + {"arguments"}, REQUIRE);
    OneMoreScope(InParams(chain, params), Hoisted(body), REQUIRE);
    OneMoreScope(InParams(chain, params) + [Hoisted(body)], Lexical(body), REQUIRE);
    OneMoreScope(chain, Lexical(body), REQUIRE);
  }

  // ---------- replacements ----------

  /** An identifier at an offset. */
  function EditsName(id: string, at: nat, chain: Chain, value: string): seq<Edit> {
    if id == REQUIRE && !ScopeBinds(chain, REQUIRE) then [Edit(at, at + |id|, value)] else []
  }

  function EditsExpr(e: Expr, at: nat, chain: Chain, helper: string): seq<Edit> {
    match e
    case Number(_) => []
    case Text(_) => []
    case Name(id) => EditsName(id, at, chain, helper)
    case Call(callee, args) =>
      (if IsStaticCall(callee, args) then [] else EditsExpr(callee, at, chain, helper))
        + EditsArgs(args, at + |PrintExpr(callee)| + 1, chain, helper)
    case Function(params, body) =>
      var start := at + |"(function ("|;
      EditsParams(params, start, InParams(chain, params), helper)
        + EditsStmts(body, start + |PrintParams(params)| + 2, InBody(chain, params, body), helper)
    case Record(props) => EditsProps(props, at + |"({"|, chain, helper)
    case Get(target, _) => EditsExpr(target, at, chain, helper)
    case Assign(id, value) => EditsExpr(value, at + |"(" + id + "="|, chain, helper)
  }

  function EditsArgs(args: Args, at: nat, chain: Chain, helper: string): seq<Edit> {
    match args
    case NoArgs => []
    case Arg(head, rest) => EditsExpr(head, at, chain, helper) + EditsArgs(rest, at + |PrintExpr(head)| + 1, chain, helper)
  }

  function EditsParams(params: Params, at: nat, chain: Chain, helper: string): seq<Edit> {
    match params
    case NoParams => []
    case Plain(id, rest) => EditsParams(rest, at + |id + ","|, chain, helper)
    case Defaulted(id, fallback, rest) =>
      var value := at + |id + "="|;
      EditsExpr(fallback, value, chain, helper) + EditsParams(rest, value + |PrintExpr(fallback)| + 1, chain, helper)
  }

  /** A shorthand property is written out. */
  function EditsProps(props: Props, at: nat, chain: Chain, helper: string): seq<Edit> {
    match props
    case NoProps => []
    case Shorthand(id, rest) => EditsName(id, at, chain, "require: " + helper) + EditsProps(rest, at + |id| + 1, chain, helper)
    case Prop(key, value, rest) =>
      var start := at + |key + ": "|;
      EditsExpr(value, start, chain, helper) + EditsProps(rest, start + |PrintExpr(value)| + 1, chain, helper)
  }

  function EditsStmt(stmt: Stmt, at: nat, chain: Chain, helper: string): seq<Edit> {
    match stmt
    case Do(expr) => EditsExpr(expr, at, chain, helper)
    case Let(id, value) => EditsExpr(value, at + |"let " + id + "="|, chain, helper)
    case Var(id, value) => EditsExpr(value, at + |"var " + id + "="|, chain, helper)
    case Block(body) => EditsStmts(body, at + 1, InBlock(chain, body), helper)
    case Declare(id, params, body) =>
      var start := at + |"function " + id + "("|;
      EditsParams(params, start, InParams(chain, params), helper)
        + EditsStmts(body, start + |PrintParams(params)| + 2, InBody(chain, params, body), helper)
    case Return(expr) => EditsExpr(expr, at + |"return "|, chain, helper)
  }

  function EditsStmts(stmts: Stmts, at: nat, chain: Chain, helper: string): seq<Edit> {
    match stmts
    case End => []
    case Then(head, rest) => EditsStmt(head, at, chain, helper) + EditsStmts(rest, at + |PrintStmt(head)|, chain, helper)
  }

  // ---------- replacing text is rewriting the module ----------

  /** Editing the text gives the result, and every edit replaces the word require. */
  ghost predicate Edited(text: string, base: nat, edits: seq<Edit>, result: string) {
    && Gives(text, base, edits, result)
    && forall i :: 0 <= i < |edits| ==> ReplacesRequire(text, base, edits[i])
  }

  predicate ReplacesRequire(text: string, base: nat, e: Edit) {
    base <= e.start <= e.end <= base + |text| && text[e.start - base..e.end - base] == REQUIRE
  }

  lemma EditedNone(text: string, base: nat)
    ensures Edited(text, base, [], text)
  {
    GivesText(text, base);
  }

  lemma EditedAfter(front: string, text: string, base: nat, edits: seq<Edit>, result: string)
    requires Edited(text, base + |front|, edits, result)
    ensures Edited(front + text, base, edits, front + result)
  {
    hide Gives, ReplacesRequire;
    GivesAfter(front, text, base, edits, result);
    forall i | 0 <= i < |edits| ensures ReplacesRequire(front + text, base, edits[i]) {
      ReplacesBehind(front, text, base, edits[i]);
    }
  }

  lemma ReplacesBehind(front: string, text: string, base: nat, e: Edit)
    requires ReplacesRequire(text, base + |front|, e)
    ensures ReplacesRequire(front + text, base, e)
  {
    assert (front + text)[e.start - base..e.end - base] == text[e.start - base - |front|..e.end - base - |front|];
  }

  lemma ReplacesInFront(text: string, back: string, base: nat, e: Edit)
    requires ReplacesRequire(text, base, e)
    ensures ReplacesRequire(text + back, base, e)
  {
    assert (text + back)[e.start - base..e.end - base] == text[e.start - base..e.end - base];
  }

  lemma EditedBoth(a: string, b: string, base: nat, ea: seq<Edit>, eb: seq<Edit>, ra: string, rb: string)
    requires Edited(a, base, ea, ra) && Edited(b, base + |a|, eb, rb)
    ensures Edited(a + b, base, ea + eb, ra + rb)
  {
    hide Gives, ReplacesRequire;
    GivesBoth(a, b, base, ea, eb, ra, rb);
    forall i | 0 <= i < |ea + eb| ensures ReplacesRequire(a + b, base, (ea + eb)[i]) {
      if i < |ea| {
        ReplacesInFront(a, b, base, ea[i]);
      } else {
        ReplacesBehind(a, b, base, eb[i - |ea|]);
      }
    }
  }

  lemma NameEdited(id: string, at: nat, chain: Chain, value: string)
    ensures Edited(id, at, EditsName(id, at, chain, value), if id == REQUIRE && !ScopeBinds(chain, REQUIRE) then value else id)
  {
    GivesOne(id, at, value);
    GivesText(id, at);
    assert id[0..|id|] == id;
  }

  /** Text that closes what was edited. */
  lemma EditedBefore(text: string, close: string, at: nat, edits: seq<Edit>, result: string)
    requires Edited(text, at, edits, result)
    ensures Edited(text + close, at, edits, result + close)
  {
    EditedNone(close, at + |text|);
    EditedBoth(text, close, at, edits, [], result, close);
    assert edits + [] == edits;
  }

  lemma {:induction false} ExprEdited(e: Expr, at: nat, chain: Chain, helper: string)
    ensures Edited(PrintExpr(e), at, EditsExpr(e, at, chain, helper), PrintExpr(RewriteExpr(e, ScopeBinds(chain, REQUIRE), helper)))
    decreases e, 1
  {
    hide Edited, ScopeBinds, EditsName, Numeral, IsStaticCall;
    match e
    case Number(n) => EditedNone(PrintExpr(e), at);
    case Text(text) => EditedNone(PrintExpr(e), at);
    case Name(id) => NameEdited(id, at, chain, helper);
    case Call(callee, args) => CallEdited(callee, args, at, chain, helper);
    case Function(params, body) =>
      var start := at + |"(function ("|;
      ParamsEdited(params, start, InParams(chain, params), helper);
      StmtsEdited(body, start + |PrintParams(params)| + 2, InBody(chain, params, body), helper);
      FunctionEdited("(function (", params, body, at, chain, helper, "})");
    case Record(props) =>
      PropsEdited(props, at + 2, chain, helper);
      var result := PrintProps(RewriteProps(props, ScopeBinds(chain, REQUIRE), helper));
      EditedBefore(PrintProps(props), "})", at + 2, EditsProps(props, at + 2, chain, helper), result);
      EditedAfter("({", PrintProps(props) + "})", at, EditsProps(props, at + 2, chain, helper), result + "})");
    case Get(target, key) =>
      ExprEdited(target, at, chain, helper);
      EditedBefore(PrintExpr(target), "." + key, at, EditsExpr(target, at, chain, helper), PrintExpr(RewriteExpr(target, ScopeBinds(chain, REQUIRE), helper)));
    case Assign(id, value) => PaddedEdited("(" + id + "=", value, ")", at, chain, helper);
  }

  /** An expression between text that stays. */
  lemma {:induction false} PaddedEdited(front: string, e: Expr, close: string, at: nat, chain: Chain, helper: string)
    ensures Edited(front + (PrintExpr(e) + close), at, EditsExpr(e, at + |front|, chain, helper),
                  front + (PrintExpr(RewriteExpr(e, ScopeBinds(chain, REQUIRE), helper)) + close))
    decreases e, 2
  {
    hide Edited, ScopeBinds, EditsExpr, PrintExpr, RewriteExpr;
    ExprEdited(e, at + |front|, chain, helper);
    var result := PrintExpr(RewriteExpr(e, ScopeBinds(chain, REQUIRE), helper));
    EditedBefore(PrintExpr(e), close, at + |front|, EditsExpr(e, at + |front|, chain, helper), result);
    EditedAfter(front, PrintExpr(e) + close, at, EditsExpr(e, at + |front|, chain, helper), result + close);
  }

  /** An expression, a separator and what follows. */
  lemma {:induction false} ListEdited(e: Expr, rest: string, at: nat, chain: Chain, helper: string, edits: seq<Edit>, result: string)
    requires Edited(rest, at + |PrintExpr(e)| + 1, edits, result)
    ensures Edited(PrintExpr(e) + ("," + rest), at, EditsExpr(e, at, chain, helper) + edits,
                  PrintExpr(RewriteExpr(e, ScopeBinds(chain, REQUIRE), helper)) + ("," + result))
    decreases e, 2
  {
    hide Edited, ScopeBinds, EditsExpr, PrintExpr, RewriteExpr;
    ExprEdited(e, at, chain, helper);
    EditedAfter(",", rest, at + |PrintExpr(e)|, edits, result);
    EditedBoth(PrintExpr(e), "," + rest, at, EditsExpr(e, at, chain, helper), edits, PrintExpr(RewriteExpr(e, ScopeBinds(chain, REQUIRE), helper)), "," + result);
  }

  lemma {:induction false} CallEdited(callee: Expr, args: Args, at: nat, chain: Chain, helper: string)
    ensures Edited(PrintExpr(Call(callee, args)), at, EditsExpr(Call(callee, args), at, chain, helper),
                  PrintExpr(RewriteExpr(Call(callee, args), ScopeBinds(chain, REQUIRE), helper)))
    decreases Call(callee, args), 0
  {
    hide Edited, ScopeBinds, IsStaticCall;
    var bound := ScopeBinds(chain, REQUIRE);
    var callee' := if IsStaticCall(callee, args) then callee else RewriteExpr(callee, bound, helper);
    var first := if IsStaticCall(callee, args) then [] else EditsExpr(callee, at, chain, helper);
    if IsStaticCall(callee, args) { EditedNone(PrintExpr(callee), at); } else { ExprEdited(callee, at, chain, helper); }
    ArgsEdited(args, at + |PrintExpr(callee)| + 1, chain, helper);
    AppliedEdited(PrintExpr(callee), PrintArgs(args), at, first, EditsArgs(args, at + |PrintExpr(callee)| + 1, chain, helper),
                  PrintExpr(callee'), PrintArgs(RewriteArgs(args, bound, helper)));
  }

  lemma AppliedEdited(callee: string, args: string, at: nat, first: seq<Edit>, edits: seq<Edit>, callee': string, result: string)
    requires Edited(callee, at, first, callee') && Edited(args, at + |callee| + 1, edits, result)
    ensures Edited(callee + ("(" + (args + ")")), at, first + edits, callee' + ("(" + (result + ")")))
  {
    hide Edited;
    EditedBefore(args, ")", at + |callee| + 1, edits, result);
    EditedAfter("(", args + ")", at + |callee|, edits, result + ")");
    EditedBoth(callee, "(" + (args + ")"), at, first, edits, callee', "(" + (result + ")"));
  }

  lemma {:induction false} ArgsEdited(args: Args, at: nat, chain: Chain, helper: string)
    ensures Edited(PrintArgs(args), at, EditsArgs(args, at, chain, helper), PrintArgs(RewriteArgs(args, ScopeBinds(chain, REQUIRE), helper)))
    decreases args, 0
  {
    hide Edited, ScopeBinds;
    match args
    case NoArgs => EditedNone("", at);
    case Arg(head, rest) =>
      var next := at + |PrintExpr(head)| + 1;
      ArgsEdited(rest, next, chain, helper);
      ListEdited(head, PrintArgs(rest), at, chain, helper, EditsArgs(rest, next, chain, helper), PrintArgs(RewriteArgs(rest, ScopeBinds(chain, REQUIRE), helper)));
  }

  lemma {:induction false} PropsEdited(props: Props, at: nat, chain: Chain, helper: string)
    ensures Edited(PrintProps(props), at, EditsProps(props, at, chain, helper), PrintProps(RewriteProps(props, ScopeBinds(chain, REQUIRE), helper)))
    decreases props, 0
  {
    hide Edited, ScopeBinds, EditsName, EditsExpr, PrintExpr, RewriteExpr;
    var bound := ScopeBinds(chain, REQUIRE);
    match props
    case NoProps => EditedNone("", at);
    case Shorthand(id, rest) =>
      var next := at + |id| + 1;
      PropsEdited(rest, next, chain, helper);
      NamePrinted(helper);
      ShorthandEdited(id, PrintProps(rest), at, chain, helper, EditsProps(rest, next, chain, helper), PrintProps(RewriteProps(rest, bound, helper)));
    case Prop(key, value, rest) =>
      var start := at + |key + ": "|;
      var next := start + |PrintExpr(value)| + 1;
      PropsEdited(rest, next, chain, helper);
      var edits, result := EditsProps(rest, next, chain, helper), PrintProps(RewriteProps(rest, bound, helper));
      ListEdited(value, PrintProps(rest), start, chain, helper, edits, result);
      EditedAfter(key + ": ", PrintExpr(value) + ("," + PrintProps(rest)), at, EditsExpr(value, start, chain, helper) + edits,
                 PrintExpr(RewriteExpr(value, bound, helper)) + ("," + result));
  }

  lemma NamePrinted(id: string)
    ensures PrintExpr(Name(id)) == id
  {
  }

  lemma ShorthandEdited(id: string, rest: string, at: nat, chain: Chain, helper: string, edits: seq<Edit>, result: string)
    requires Edited(rest, at + |id| + 1, edits, result)
    ensures Edited(id + ("," + rest), at, EditsName(id, at, chain, "require: " + helper) + edits,
                  if id == REQUIRE && !ScopeBinds(chain, REQUIRE) then ("require" + ": ") + (helper + ("," + result)) else id + ("," + result))
  {
    hide Edited, ScopeBinds, EditsName;
    NameEdited(id, at, chain, "require: " + helper);
    EditedAfter(",", rest, at + |id|, edits, result);
    var name := if id == REQUIRE && !ScopeBinds(chain, REQUIRE) then "require: " + helper else id;
    EditedBoth(id, "," + rest, at, EditsName(id, at, chain, "require: " + helper), edits, name, "," + result);
    assert ("require" + ": ") + (helper + ("," + result)) == ("require: " + helper) + ("," + result);
  }

  lemma {:induction false} ParamsEdited(params: Params, at: nat, chain: Chain, helper: string)
    ensures Edited(PrintParams(params), at, EditsParams(params, at, chain, helper), PrintParams(RewriteParams(params, ScopeBinds(chain, REQUIRE), helper)))
    decreases params, 0
  {
    hide Edited, ScopeBinds;
    var bound := ScopeBinds(chain, REQUIRE);
    match params
    case NoParams => EditedNone("", at);
    case Plain(id, rest) =>
      ParamsEdited(rest, at + |id + ","|, chain, helper);
      EditedAfter(id + ",", PrintParams(rest), at, EditsParams(rest, at + |id + ","|, chain, helper), PrintParams(RewriteParams(rest, bound, helper)));
    case Defaulted(id, fallback, rest) =>
      var start := at + |id + "="|;
      var next := start + |PrintExpr(fallback)| + 1;
      ParamsEdited(rest, next, chain, helper);
      var edits, result := EditsParams(rest, next, chain, helper), PrintParams(RewriteParams(rest, bound, helper));
      ListEdited(fallback, PrintParams(rest), start, chain, helper, edits, result);
      EditedAfter(id + "=", PrintExpr(fallback) + ("," + PrintParams(rest)), at, EditsExpr(fallback, start, chain, helper) + edits,
                 PrintExpr(RewriteExpr(fallback, bound, helper)) + ("," + result));
  }

  /** The parameters and the body of a function, each with its own scope chain. */
  lemma FunctionEdited(front: string, params: Params, body: Stmts, at: nat, chain: Chain, helper: string, close: string)
    requires Edited(PrintParams(params), at + |front|, EditsParams(params, at + |front|, InParams(chain, params), helper),
                   PrintParams(RewriteParams(params, ScopeBinds(InParams(chain, params), REQUIRE), helper)))
    requires var inner := at + |front| + |PrintParams(params)| + 2;
             Edited(PrintStmts(body), inner, EditsStmts(body, inner, InBody(chain, params, body), helper),
                   PrintStmts(RewriteStmts(body, ScopeBinds(InBody(chain, params, body), REQUIRE), helper)))
    ensures var bound, inner := ScopeBinds(chain, REQUIRE), at + |front| + |PrintParams(params)| + 2;
            Edited(front + (PrintParams(params) + ("){" + (PrintStmts(body) + close))), at,
                  EditsParams(params, at + |front|, InParams(chain, params), helper) + EditsStmts(body, inner, InBody(chain, params, body), helper),
                  front + (PrintParams(RewriteParams(params, BoundInParams(params, bound), helper)) + ("){" + (PrintStmts(RewriteStmts(body, BoundInBody(params, body, bound), helper)) + close))))
  {
    hide Edited, ScopeBinds, InParams, InBody, BoundInParams, BoundInBody, EditsParams, EditsStmts, PrintParams, PrintStmts, RewriteParams, RewriteStmts;
    ChainsAgree(chain, params, body);
    var inParams, inBody := InParams(chain, params), InBody(chain, params, body);
    var start := at + |front|;
    var inner := start + |PrintParams(params)| + 2;
    var head, edits := EditsParams(params, start, inParams, helper), EditsStmts(body, inner, inBody, helper);
    var names, result := PrintParams(RewriteParams(params, ScopeBinds(inParams, REQUIRE), helper)), PrintStmts(RewriteStmts(body, ScopeBinds(inBody, REQUIRE), helper));
    EditedBefore(PrintStmts(body), close, inner, edits, result);
    EditedAfter("){", PrintStmts(body) + close, start + |PrintParams(params)|, edits, result + close);
    EditedBoth(PrintParams(params), "){" + (PrintStmts(body) + close), start, head, edits, names, "){" + (result + close));
    EditedAfter(front, PrintParams(params) + ("){" + (PrintStmts(body) + close)), at, head + edits, names + ("){" + (result + close)));
  }

  lemma {:induction false} StmtEdited(stmt: Stmt, at: nat, chain: Chain, helper: string)
    ensures Edited(PrintStmt(stmt), at, EditsStmt(stmt, at, chain, helper), PrintStmt(RewriteStmt(stmt, ScopeBinds(chain, REQUIRE), helper)))
    decreases stmt, 0
  {
    hide Edited, ScopeBinds, EditsExpr, PrintExpr, RewriteExpr, PrintStmts, PrintParams;
    var bound := ScopeBinds(chain, REQUIRE);
    match stmt
    case Do(expr) =>
      ExprEdited(expr, at, chain, helper);
      EditedBefore(PrintExpr(expr), ";", at, EditsExpr(expr, at, chain, helper), PrintExpr(RewriteExpr(expr, bound, helper)));
    case Let(id, value) => PaddedEdited("let " + id + "=", value, ";", at, chain, helper);
    case Var(id, value) => PaddedEdited("var " + id + "=", value, ";", at, chain, helper);
    case Return(expr) => PaddedEdited("return ", expr, ";", at, chain, helper);
    case Block(body) =>
      ChainsAgree(chain, NoParams, body);
      StmtsEdited(body, at + 1, InBlock(chain, body), helper);
      var edits, result := EditsStmts(body, at + 1, InBlock(chain, body), helper), PrintStmts(RewriteStmts(body, BoundInBlock(body, bound), helper));
      EditedBefore(PrintStmts(body), "}", at + 1, edits, result);
      EditedAfter("{", PrintStmts(body) + "}", at, edits, result + "}");
    case Declare(id, params, body) =>
      var front := "function " + id + "(";
      var start := at + |front|;
      ParamsEdited(params, start, InParams(chain, params), helper);
      StmtsEdited(body, start + |PrintParams(params)| + 2, InBody(chain, params, body), helper);
      FunctionEdited(front, params, body, at, chain, helper, "}");
  }

  lemma {:induction false} StmtsEdited(stmts: Stmts, at: nat, chain: Chain, helper: string)
    ensures Edited(PrintStmts(stmts), at, EditsStmts(stmts, at, chain, helper), PrintStmts(RewriteStmts(stmts, ScopeBinds(chain, REQUIRE), helper)))
    decreases stmts, 0
  {
    hide Edited, ScopeBinds, EditsStmt, PrintStmt, RewriteStmt;
    match stmts
    case End => EditedNone("", at);
    case Then(head, rest) =>
      var next := at + |PrintStmt(head)|;
      StmtEdited(head, at, chain, helper);
      StmtsEdited(rest, next, chain, helper);
      EditedBoth(PrintStmt(head), PrintStmts(rest), at, EditsStmt(head, at, chain, helper), EditsStmts(rest, next, chain, helper),
                PrintStmt(RewriteStmt(head, ScopeBinds(chain, REQUIRE), helper)), PrintStmts(RewriteStmts(rest, ScopeBinds(chain, REQUIRE), helper)));
  }

  // ---------- the fresh name ----------

  const HELPER: string := "__sporadesModuleRequire"

  /** contents.includes(part). */
  predicate Contains(text: string, part: string) {
    exists i :: 0 <= i <= |text| - |part| && Occurs(text, part, i)
  }

  predicate Occurs(text: string, part: string, i: int)
    requires 0 <= i <= |text| - |part|
  {
    text[i..i + |part|] == part
  }

  function Underscores(n: nat): string { if n == 0 then "" else Underscores(n - 1) + "_" }

  /** The shortest name, with underscores added, that the text does not contain. */
  method FreshHelper(contents: string) returns (helper: string, ghost n: nat)
    ensures helper == HELPER + Underscores(n) && !Contains(contents, helper)
    ensures forall m :: 0 <= m < n ==> Contains(contents, HELPER + Underscores(m))
    ensures helper != REQUIRE
  {
    helper, n := HELPER, 0;
    while Contains(contents, helper)
      invariant helper == HELPER + Underscores(n)
      invariant forall m :: 0 <= m < n ==> Contains(contents, HELPER + Underscores(m))
      decreases |contents| - |helper|
    {
      helper := helper + "_";
      n := n + 1;
    }
    assert helper[0] == '_';
  }

  lemma ContainsLeft(a: string, b: string, part: string)
    requires Contains(a, part)
    ensures Contains(a + b, part)
  {
    var i :| 0 <= i <= |a| - |part| && Occurs(a, part, i);
    assert (a + b)[i..i + |part|] == a[i..i + |part|];
    assert Occurs(a + b, part, i);
  }

  lemma ContainsRight(a: string, b: string, part: string)
    requires Contains(b, part)
    ensures Contains(a + b, part)
  {
    var i :| 0 <= i <= |b| - |part| && Occurs(b, part, i);
    assert (a + b)[|a| + i..|a| + i + |part|] == b[i..i + |part|];
    assert Occurs(a + b, part, |a| + i);
  }

  lemma ContainsMiddle(a: string, b: string, c: string, part: string)
    requires Contains(b, part)
    ensures Contains(a + (b + c), part) && Contains((a + b) + c, part)
  {
    ContainsLeft(b, c, part);
    ContainsRight(a, b + c, part);
    ContainsRight(a, b, part);
    ContainsLeft(a + b, c, part);
  }

  lemma ContainsItself(text: string)
    ensures Contains(text, text)
  {
    assert text[0..|text|] == text;
    assert Occurs(text, text, 0);
  }
}
