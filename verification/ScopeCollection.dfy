/** The two passes of specializeCommonJsRendererModule (src/client-prerender.ts) over the syntax, as
    the source makes them: the first fills the bindings of scope records and a table from
    identifiers to scopes in place, with var bindings added to an enclosing function's record after
    identifiers inside it were recorded; the second looks scopes up and pushes replacements.  A
    scope is named by its index in the table of records, an identifier by its offset. */
module ScopeCollection {
  import opened ModuleSyntax
  import opened RequireRewrite
  import opened TextEdits

  const NO_PARENT: int := -1

  datatype Scope = Scope(parent: int, functionScope: bool, bindings: set<string>)

  // ---------- what the records must become ----------

  /** Parents come before their children. */
  ghost predicate Rooted(records: seq<Scope>) {
    && records != [] && records[0].functionScope && records[0].parent == NO_PARENT
    && forall i :: 0 < i < |records| ==> 0 <= records[i].parent < i
  }

  /** The scope or one around it binds require, once every binding is in. */
  ghost predicate BindsRequire(records: seq<Scope>, expected: seq<set<string>>, scope: int)
    requires Rooted(records) && |expected| == |records|
    decreases scope
  {
    0 <= scope < |records| && (REQUIRE in expected[scope] || BindsRequire(records, expected, records[scope].parent))
  }

  ghost function NearestFunction(records: seq<Scope>, scope: nat): (f: nat)
    requires Rooted(records) && scope < |records|
    ensures f <= scope && records[f].functionScope
    decreases scope
  {
    if records[scope].functionScope then scope else NearestFunction(records, records[scope].parent)
  }

  /** The same records, apart from bindings, and perhaps more of them. */
  ghost predicate Grown(before: seq<Scope>, after: seq<Scope>) {
    && |before| <= |after|
    && forall i :: 0 <= i < |before| ==> after[i].parent == before[i].parent && after[i].functionScope == before[i].functionScope
  }

  lemma {:induction false} BindsStays(before: seq<Scope>, after: seq<Scope>, expected: seq<set<string>>, expected': seq<set<string>>, scope: int)
    requires Rooted(before) && Rooted(after) && Grown(before, after) && |expected| == |before| && |expected'| == |after|
    requires expected <= expected' && scope < |before|
    ensures BindsRequire(after, expected', scope) == BindsRequire(before, expected, scope)
    decreases scope
  {
    if 0 <= scope { BindsStays(before, after, expected, expected', before[scope].parent); }
  }

  lemma {:induction false} NearestStays(before: seq<Scope>, after: seq<Scope>, scope: nat)
    requires Rooted(before) && Rooted(after) && Grown(before, after) && scope < |before|
    ensures NearestFunction(after, scope) == NearestFunction(before, scope)
    decreases scope
  {
    if !before[scope].functionScope { NearestStays(before, after, before[scope].parent); }
  }

  // ---------- which identifiers are bound ----------

  /** An identifier at an offset, with whether a declaration around it binds require. */
  type Claim = (nat, bool)

  function ClaimsExpr(e: Expr, at: nat, bound: bool): set<Claim> {
    match e
    case Number(_) => {}
    case Text(_) => {}
    case Name(_) => {(at, bound)}
    case Call(callee, args) => ClaimsExpr(callee, at, bound) + ClaimsArgs(args, at + |PrintExpr(callee)| + 1, bound)
    case Function(params, body) =>
      var start := at + |"(function ("|;
      ClaimsParams(params, start, BoundInParams(params, bound))
        + ClaimsStmts(body, start + |PrintParams(params)| + 2, BoundInBody(params, body, bound))
    case Record(props) => ClaimsProps(props, at + 2, bound)
    case Get(target, _) => ClaimsExpr(target, at, bound)
    case Assign(id, value) => ClaimsExpr(value, at + |"(" + id + "="|, bound)
  }

  function ClaimsArgs(args: Args, at: nat, bound: bool): set<Claim> {
    match args
    case NoArgs => {}
    case Arg(head, rest) => ClaimsExpr(head, at, bound) + ClaimsArgs(rest, at + |PrintExpr(head)| + 1, bound)
  }

  function ClaimsParams(params: Params, at: nat, bound: bool): set<Claim> {
    match params
    case NoParams => {}
    case Plain(id, rest) => ClaimsParams(rest, at + |id + ","|, bound)
    case Defaulted(id, fallback, rest) =>
      var value := at + |id + "="|;
      ClaimsExpr(fallback, value, bound) + ClaimsParams(rest, value + |PrintExpr(fallback)| + 1, bound)
  }

  function ClaimsProps(props: Props, at: nat, bound: bool): set<Claim> {
    match props
    case NoProps => {}
    case Shorthand(id, rest) => {(at, bound)} + ClaimsProps(rest, at + |id| + 1, bound)
    case Prop(key, value, rest) =>
      var start := at + |key + ": "|;
      ClaimsExpr(value, start, bound) + ClaimsProps(rest, start + |PrintExpr(value)| + 1, bound)
  }

  function ClaimsStmt(stmt: Stmt, at: nat, bound: bool): set<Claim> {
    match stmt
    case Do(expr) => ClaimsExpr(expr, at, bound)
    case Let(id, value) => ClaimsExpr(value, at + |"let " + id + "="|, bound)
    case Var(id, value) => ClaimsExpr(value, at + |"var " + id + "="|, bound)
    case Block(body) => ClaimsStmts(body, at + 1, BoundInBlock(body, bound))
    case Declare(id, params, body) =>
      var start := at + |"function " + id + "("|;
      ClaimsParams(params, start, BoundInParams(params, bound))
        + ClaimsStmts(body, start + |PrintParams(params)| + 2, BoundInBody(params, body, bound))
    case Return(expr) => ClaimsExpr(expr, at + |"return "|, bound)
  }

  function ClaimsStmts(stmts: Stmts, at: nat, bound: bool): set<Claim> {
    match stmts
    case End => {}
    case Then(head, rest) => ClaimsStmt(head, at, bound) + ClaimsStmts(rest, at + |PrintStmt(head)|, bound)
  }

  ghost predicate AllBefore(claims: set<Claim>, limit: nat) { forall c :: c in claims ==> c.0 < limit }

  /** Every claim is what the table and the records will say. */
  ghost predicate Kept(claims: set<Claim>, records: seq<Scope>, expected: seq<set<string>>, scopeOf: map<nat, nat>)
    requires Rooted(records) && |expected| == |records|
  {
    forall c :: c in claims ==> c.0 in scopeOf && scopeOf[c.0] < |records| && BindsRequire(records, expected, scopeOf[c.0]) == c.1
  }

  lemma KeptStays(claims: set<Claim>, before: seq<Scope>, after: seq<Scope>, expected: seq<set<string>>, expected': seq<set<string>>, scopeOf: map<nat, nat>)
    requires Rooted(before) && Rooted(after) && Grown(before, after) && |expected| == |before| && |expected'| == |after| && expected <= expected'
    requires Kept(claims, before, expected, scopeOf)
    ensures Kept(claims, after, expected', scopeOf)
  {
    forall c | c in claims ensures BindsRequire(after, expected', scopeOf[c.0]) == c.1 {
      BindsStays(before, after, expected, expected', scopeOf[c.0]);
    }
  }

  // ---------- parts of the first pass ----------

  /** The state of the pass: the records, what their bindings will be when it is over, the scope of
      each identifier, and what was claimed about it. */
  datatype View = View(records: seq<Scope>, expected: seq<set<string>>, scopeOf: map<nat, nat>, claims: set<Claim>)

  ghost predicate Valid(v: View) {
    Rooted(v.records) && |v.expected| == |v.records| && Kept(v.claims, v.records, v.expected, v.scopeOf)
  }

  ghost predicate Bound(v: View, scope: nat)
    requires Valid(v)
  {
    BindsRequire(v.records, v.expected, scope)
  }

  /** What a part of the pass changes: bindings of its scope and of the function around it, and
      records of its own, which it leaves complete. */
  ghost predicate Part(v: View, n: View, scope: nat, lexical: set<string>, hoisted: set<string>, added: set<Claim>) {
    && Valid(v) && Valid(n) && scope < |v.records|
    && Grown(v.records, n.records) && v.expected <= n.expected && n.claims == v.claims + added
    && (forall i :: 0 <= i < |v.records| ==> n.records[i].bindings == Filled(v.records, i, scope, lexical, hoisted))
    && forall i :: |v.records| <= i < |n.records| ==> n.records[i].bindings == n.expected[i]
  }

  ghost function Filled(records: seq<Scope>, i: nat, scope: nat, lexical: set<string>, hoisted: set<string>): set<string>
    requires Rooted(records) && i < |records| && scope < |records|
  {
    records[i].bindings + (if i == scope then lexical else {}) + (if i == NearestFunction(records, scope) then hoisted else {})
  }

  ghost predicate InFunction(v: View, scope: nat)
    requires Valid(v) && scope < |v.records|
  {
    v.records[NearestFunction(v.records, scope)].parent != NO_PARENT
  }

  lemma PartKeeps(v: View, n: View, scope: nat, lexical: set<string>, hoisted: set<string>, added: set<Claim>, other: nat)
    requires Part(v, n, scope, lexical, hoisted, added) && other < |v.records|
    ensures Valid(v) && Valid(n) && other < |n.records| && Bound(n, other) == Bound(v, other)
    ensures NearestFunction(n.records, other) == NearestFunction(v.records, other)
    ensures InFunction(n, other) == InFunction(v, other)
  {
    BindsStays(v.records, n.records, v.expected, n.expected, other);
    NearestStays(v.records, n.records, other);
  }

  lemma NoPart(v: View, scope: nat)
    requires Valid(v) && scope < |v.records|
    ensures Part(v, v, scope, {}, {}, {})
  {
  }

  lemma PartThen(a: View, b: View, c: View, scope: nat, l1: set<string>, h1: set<string>, c1: set<Claim>, l2: set<string>, h2: set<string>, c2: set<Claim>)
    requires Part(a, b, scope, l1, h1, c1) && Part(b, c, scope, l2, h2, c2)
    ensures Part(a, c, scope, l1 + l2, h1 + h2, c1 + c2)
  {
    PartKeeps(a, b, scope, l1, h1, c1, scope);
    hide BindsRequire, Kept, NearestFunction;
    forall i | 0 <= i < |a.records| ensures c.records[i].bindings == Filled(a.records, i, scope, l1 + l2, h1 + h2) {
      FilledTwice(a.records, b.records, i, scope, l1, h1, l2, h2);
    }
    forall i | |a.records| <= i < |c.records| ensures c.records[i].bindings == c.expected[i] {
      if i < |b.records| { AddedIsExpected(a, b, c, scope, l1, h1, c1, l2, h2, c2, i); }
    }
  }

  lemma FilledTwice(a: seq<Scope>, b: seq<Scope>, i: nat, scope: nat, l1: set<string>, h1: set<string>, l2: set<string>, h2: set<string>)
    requires Rooted(a) && Rooted(b) && i < |a| <= |b| && scope < |a| && NearestFunction(b, scope) == NearestFunction(a, scope)
    requires b[i].bindings == Filled(a, i, scope, l1, h1)
    ensures Filled(b, i, scope, l2, h2) == Filled(a, i, scope, l1 + l2, h1 + h2)
  {
    hide NearestFunction;
  }

  /** A record made by the first part is complete, and is neither the scope nor its function. */
  lemma AddedIsExpected(a: View, b: View, c: View, scope: nat, l1: set<string>, h1: set<string>, c1: set<Claim>, l2: set<string>, h2: set<string>, c2: set<Claim>, i: nat)
    requires Part(a, b, scope, l1, h1, c1) && Part(b, c, scope, l2, h2, c2) && |a.records| <= i < |b.records|
    requires NearestFunction(b.records, scope) == NearestFunction(a.records, scope)
    ensures c.records[i].bindings == c.expected[i]
  {
    hide BindsRequire, Kept, NearestFunction;
    assert c.records[i].bindings == Filled(b.records, i, scope, l2, h2);
    assert NearestFunction(a.records, scope) < |a.records|;
  }

  function NoNames(): set<string> { {} }

  /** Two parts that bind nothing. */
  lemma PartsTogether(a: View, b: View, c: View, scope: nat, c1: set<Claim>, c2: set<Claim>)
    requires Part(a, b, scope, {}, {}, c1) && Part(b, c, scope, {}, {}, c2)
    ensures Part(a, c, scope, {}, {}, c1 + c2)
  {
    PartThen(a, b, c, scope, {}, {}, c1, {}, {}, c2);
    hide Part;
    var none: set<string> := {};
    assert none + none == none;
  }

  /** A new record at the end. */
  ghost predicate Opened(v: View, n: View, parent: nat, functionScope: bool, bindings: set<string>, complete: set<string>) {
    && parent < |v.records| && n.records == v.records + [Scope(parent, functionScope, bindings)]
    && n.expected == v.expected + [complete] && n.scopeOf == v.scopeOf && n.claims == v.claims
  }

  lemma OpenedValid(v: View, n: View, parent: nat, functionScope: bool, bindings: set<string>, complete: set<string>)
    requires Valid(v) && Opened(v, n, parent, functionScope, bindings, complete)
    ensures Valid(n) && Grown(v.records, n.records)
    ensures Bound(n, |v.records|) <==> REQUIRE in complete || Bound(v, parent)
    ensures NearestFunction(n.records, |v.records|) == if functionScope then |v.records| else NearestFunction(v.records, parent)
    ensures Bound(n, parent) == Bound(v, parent) && NearestFunction(n.records, parent) == NearestFunction(v.records, parent)
  {
    KeptStays(v.claims, v.records, n.records, v.expected, n.expected, v.scopeOf);
    BindsStays(v.records, n.records, v.expected, n.expected, parent);
    NearestStays(v.records, n.records, parent);
  }

  /** A block's record, completed by the part that visits the block. */
  lemma BlockPart(v: View, b: View, n: View, scope: nat, lexical: set<string>, hoisted: set<string>, added: set<Claim>)
    requires Valid(v) && Opened(v, b, scope, false, {}, lexical) && Part(b, n, |v.records|, lexical, hoisted, added)
    ensures Part(v, n, scope, {}, hoisted, added)
  {
    OpenedValid(v, b, scope, false, {}, lexical);
    hide BindsRequire, Kept, NearestFunction;
    forall i | 0 <= i < |n.records| ensures n.records[i].bindings == (if i < |v.records| then Filled(v.records, i, scope, {}, hoisted) else n.expected[i]) {
      if i < |b.records| { assert n.records[i].bindings == Filled(b.records, i, |v.records|, lexical, hoisted); }
    }
  }

  /** The three records of a function: its parameters, what var hoists out of its body, and the body. */
  ghost predicate FunctionOpened(v: View, b: View, scope: nat, names: set<string>, params: Params, body: Stmts) {
    var all := names + ParamNames(params);
    && Valid(v) && scope < |v.records|
    && b.records == v.records + [Scope(scope, true, all)] + [Scope(|v.records|, true, {})] + [Scope(|v.records| + 1, false, {})]
    && b.expected == v.expected + [all] + [Hoisted(body)] + [Lexical(body)]
    && b.scopeOf == v.scopeOf && b.claims == v.claims
  }

  lemma FunctionScopes(v: View, b: View, scope: nat, names: set<string>, params: Params, body: Stmts)
    requires FunctionOpened(v, b, scope, names, params, body) && (REQUIRE in names ==> Bound(v, scope))
    ensures Valid(b) && |b.records| == |v.records| + 3
    ensures Bound(b, |v.records|) <==> BoundInParams(params, Bound(v, scope))
    ensures Bound(b, |v.records| + 2) <==> BoundInBody(params, body, Bound(v, scope))
    ensures NearestFunction(b.records, |v.records| + 2) == |v.records| + 1 && InFunction(b, |v.records| + 2)
  {
    var all := names + ParamNames(params);
    var p := v.(records := v.records + [Scope(scope, true, all)], expected := v.expected + [all]);
    var h := p.(records := p.records + [Scope(|v.records|, true, {})], expected := p.expected + [Hoisted(body)]);
    assert Opened(v, p, scope, true, all, all);
    OpenedValid(v, p, scope, true, all, all);
    assert Opened(p, h, |v.records|, true, {}, Hoisted(body));
    OpenedValid(p, h, |v.records|, true, {}, Hoisted(body));
    assert Opened(h, b, |p.records|, false, {}, Lexical(body));
    OpenedValid(h, b, |p.records|, false, {}, Lexical(body));
    BindsStays(h.records, b.records, h.expected, b.expected, |v.records|);
  }

  lemma FunctionRecords(v: View, b: View, scope: nat, names: set<string>, params: Params, body: Stmts)
    requires FunctionOpened(v, b, scope, names, params, body)
    ensures var k := |v.records|;
            && |b.records| == |b.expected| == k + 3 && |v.expected| == k && v.expected <= b.expected && Grown(v.records, b.records) && b.claims == v.claims
            && (forall i :: 0 <= i < k ==> b.records[i] == v.records[i])
            && b.records[k].bindings == b.expected[k]
            && b.records[k + 1].bindings == {} && b.expected[k + 1] == Hoisted(body)
            && b.records[k + 2].bindings == {} && b.expected[k + 2] == Lexical(body)
  {
  }

  /** The records of a function, completed by the parts that visit its parameters and its body. */
  lemma FunctionPart(v: View, b: View, m: View, n: View, scope: nat, names: set<string>, params: Params, body: Stmts, c1: set<Claim>, c2: set<Claim>)
    requires FunctionOpened(v, b, scope, names, params, body) && (REQUIRE in names ==> Bound(v, scope))
    requires Part(b, m, |v.records|, {}, {}, c1) && Part(m, n, |v.records| + 2, Lexical(body), Hoisted(body), c2)
    ensures Part(v, n, scope, {}, {}, c1 + c2)
  {
    hide Kept, Lexical, Hoisted, BoundInParams, BoundInBody;
    FunctionScopes(v, b, scope, names, params, body);
    FunctionRecords(v, b, scope, names, params, body);
    hide FunctionOpened, BindsRequire, NearestFunction;
    PartKeeps(b, m, |v.records|, {}, {}, c1, |v.records| + 2);
    FunctionGrown(v, b, m, n, body, c1, c2);
    forall i | 0 <= i < |n.records| ensures n.records[i].bindings == (if i < |v.records| then v.records[i].bindings else n.expected[i]) {
      FunctionBindings(v, b, m, n, body, c1, c2, i);
    }
    forall i | 0 <= i < |v.records| ensures Filled(v.records, i, scope, {}, {}) == v.records[i].bindings {
      FilledWithNothing(v.records, i, scope);
    }
  }

  lemma FilledWithNothing(records: seq<Scope>, i: nat, scope: nat)
    requires Rooted(records) && i < |records| && scope < |records|
    ensures Filled(records, i, scope, {}, {}) == records[i].bindings
  {
    hide NearestFunction;
  }

  lemma FunctionGrown(v: View, b: View, m: View, n: View, body: Stmts, c1: set<Claim>, c2: set<Claim>)
    requires Grown(v.records, b.records) && v.expected <= b.expected && b.claims == v.claims && |v.records| + 2 < |b.records|
    requires Part(b, m, |v.records|, {}, {}, c1) && Part(m, n, |v.records| + 2, Lexical(body), Hoisted(body), c2)
    ensures Grown(v.records, n.records) && v.expected <= n.expected && n.claims == v.claims + (c1 + c2)
  {
    hide BindsRequire, Kept, NearestFunction, Lexical, Hoisted, Filled;
  }

  /** What the two parts of a function make of each record. */
  lemma FunctionBindings(v: View, b: View, m: View, n: View, body: Stmts, c1: set<Claim>, c2: set<Claim>, i: nat)
    requires var k := |v.records|;
             && |b.records| == |b.expected| == k + 3 && |v.expected| == k
             && (forall i :: 0 <= i < k ==> b.records[i] == v.records[i])
             && b.records[k].bindings == b.expected[k]
             && b.records[k + 1].bindings == {} && b.expected[k + 1] == Hoisted(body)
             && b.records[k + 2].bindings == {} && b.expected[k + 2] == Lexical(body)
    requires Part(b, m, |v.records|, {}, {}, c1) && Part(m, n, |v.records| + 2, Lexical(body), Hoisted(body), c2)
    requires NearestFunction(m.records, |v.records| + 2) == |v.records| + 1 && i < |n.records|
    ensures n.records[i].bindings == if i < |v.records| then v.records[i].bindings else n.expected[i]
  {
    hide BindsRequire, Kept, NearestFunction, Lexical, Hoisted, Grown;
    if i < |m.records| {
      assert n.records[i].bindings == Filled(m.records, i, |v.records| + 2, Lexical(body), Hoisted(body));
      if i < |b.records| {
        FilledWithNothing(b.records, i, |v.records|);
        assert m.records[i].bindings == b.records[i].bindings;
      }
    }
  }

  // ---------- the first pass ----------

  /** What var declarations of a list add to the function's record: the module's own function keeps
      the wrapper's names free. */
  ghost function HoistedHere(names: set<string>, inFunction: bool): set<string> { if inFunction then names else names - WRAPPER_NAMES }

  class Collector {
    var records: seq<Scope>
    var scopeOf: map<nat, nat>
    var replacements: seq<Edit>
    /** What each record's bindings will be when the first pass is over. */
    ghost var expected: seq<set<string>>
    /** What the first pass has recorded about identifiers. */
    ghost var claims: set<Claim>

    constructor (ghost rootBindings: set<string>)
      ensures Valid(Now()) && records == [Scope(NO_PARENT, true, {})] && expected == [rootBindings] && claims == {} && replacements == []
    {
      replacements := [];
      records := [Scope(NO_PARENT, true, {})];
      scopeOf := map[];
      expected := [rootBindings];
      claims := {};
    }

    ghost function Now(): View
      reads this
    {
      View(records, expected, scopeOf, claims)
    }

    method NewScope(parent: nat, functionScope: bool, bindings: set<string>, ghost complete: set<string>) returns (scope: nat)
      requires Valid(Now()) && parent < |records|
      modifies this`records, this`expected
      ensures Opened(old(Now()), Now(), parent, functionScope, bindings, complete) && scope == old(|records|)
    {
      scope := |records|;
      records := records + [Scope(parent, functionScope, bindings)];
      expected := expected + [complete];
    }

    /** addRendererBinding of one name. */
    method AddBinding(scope: nat, name: string)
      requires Valid(Now()) && scope < |records|
      modifies this`records
      ensures Valid(Now())
      ensures records == old(records)[scope := old(records)[scope].(bindings := old(records)[scope].bindings + {name})]
    {
      ghost var before := records;
      records := records[scope := records[scope].(bindings := records[scope].bindings + {name})];
      KeptStays(claims, before, records, expected, expected, scopeOf);
    }

    /** nearestRendererFunctionScope. */
    method NearestFunctionScope(scope: nat) returns (candidate: nat)
      requires Valid(Now()) && scope < |records|
      ensures candidate == NearestFunction(records, scope)
    {
      candidate := scope;
      while !records[candidate].functionScope && records[candidate].parent != NO_PARENT
        invariant candidate < |records| && NearestFunction(records, candidate) == NearestFunction(records, scope)
        decreases candidate
      {
        candidate := records[candidate].parent;
      }
    }

    /** The binding of a let or of a function declaration. */
    method BindLexical(scope: nat, name: string)
      requires Valid(Now()) && scope < |records|
      modifies this`records
      ensures Part(old(Now()), Now(), scope, {name}, {}, {})
    {
      AddBinding(scope, name);
    }

    /** The binding of a var, which goes to the function around it. */
    method BindHoisted(scope: nat, name: string)
      requires Valid(Now()) && scope < |records|
      modifies this`records
      ensures Part(old(Now()), Now(), scope, {}, HoistedHere({name}, InFunction(old(Now()), scope)), {})
    {
      var declarationScope := NearestFunctionScope(scope);
      if records[declarationScope].parent == NO_PARENT && name in WRAPPER_NAMES {
        NoPart(Now(), scope);
      } else {
        AddBinding(declarationScope, name);
      }
    }

    /** scopes.set of an identifier. */
    method RecordIdentifier(at: nat, scope: nat)
      requires Valid(Now()) && scope < |records| && AllBefore(claims, at)
      modifies this`scopeOf, this`claims
      ensures Part(old(Now()), Now(), scope, {}, {}, {(at, Bound(old(Now()), scope))})
      ensures AllBefore(claims, at + 1)
    {
      scopeOf := scopeOf[at := scope];
      claims := claims + {(at, BindsRequire(records, expected, scope))};
    }

    method CollectExpr(e: Expr, at: nat, scope: nat)
      requires Valid(Now()) && scope < |records| && AllBefore(claims, at)
      modifies this`records, this`scopeOf, this`expected, this`claims
      ensures Part(old(Now()), Now(), scope, {}, {}, ClaimsExpr(e, at, Bound(old(Now()), scope)))
      ensures AllBefore(claims, at + |PrintExpr(e)| + 1)
      decreases e, 1
    {
      hide Part, Valid, Bound;
      ghost var before := Now();
      match e
      case Number(_) => NoPart(before, scope);
      case Text(_) => NoPart(before, scope);
      case Name(_) => RecordIdentifier(at, scope);
      case Call(callee, args) => CollectCall(callee, args, at, scope);
      case Function(params, body) => CollectFunctionExpr(params, body, at, scope);
      case Record(props) => CollectProps(props, at + 2, scope);
      case Get(target, key) => CollectExpr(target, at, scope);
      case Assign(id, value) => CollectExpr(value, at + |"(" + id + "="|, scope);
    }

    method CollectCall(callee: Expr, args: Args, at: nat, scope: nat)
      requires Valid(Now()) && scope < |records| && AllBefore(claims, at)
      modifies this`records, this`scopeOf, this`expected, this`claims
      ensures Part(old(Now()), Now(), scope, {}, {}, ClaimsExpr(Call(callee, args), at, Bound(old(Now()), scope)))
      ensures AllBefore(claims, at + |PrintExpr(Call(callee, args))| + 1)
      decreases Call(callee, args), 0
    {
      hide Part, Valid, Bound;
      ghost var before := Now();
      CollectExpr(callee, at, scope);
      ghost var middle := Now();
      ghost var bound := Bound(before, scope);
      var inner := at + |PrintExpr(callee)| + 1;
      PartKeeps(before, middle, scope, {}, {}, ClaimsExpr(callee, at, bound), scope);
      CollectArgs(args, inner, scope);
      PartsTogether(before, middle, Now(), scope, ClaimsExpr(callee, at, bound), ClaimsArgs(args, inner, bound));
    }

    method CollectArgs(args: Args, at: nat, scope: nat)
      requires Valid(Now()) && scope < |records| && AllBefore(claims, at)
      modifies this`records, this`scopeOf, this`expected, this`claims
      ensures Part(old(Now()), Now(), scope, {}, {}, ClaimsArgs(args, at, Bound(old(Now()), scope)))
      ensures AllBefore(claims, at + |PrintArgs(args)| + 1)
      decreases args, 0
    {
      hide Part, Valid, Bound;
      ghost var before := Now();
      match args
      case NoArgs => NoPart(before, scope);
      case Arg(head, rest) =>
        ghost var bound := Bound(before, scope);
        var next := at + |PrintExpr(head)| + 1;
        CollectExpr(head, at, scope);
        ghost var middle := Now();
        PartKeeps(before, middle, scope, {}, {}, ClaimsExpr(head, at, bound), scope);
        CollectArgs(rest, next, scope);
        PartsTogether(before, middle, Now(), scope, ClaimsExpr(head, at, bound), ClaimsArgs(rest, next, bound));
    }

    lemma StillBefore(claims: set<Claim>, limit: nat, later: nat)
      requires AllBefore(claims, limit) && limit <= later
      ensures AllBefore(claims, later)
    {
    }

    method CollectProps(props: Props, at: nat, scope: nat)
      requires Valid(Now()) && scope < |records| && AllBefore(claims, at)
      modifies this`records, this`scopeOf, this`expected, this`claims
      ensures Part(old(Now()), Now(), scope, {}, {}, ClaimsProps(props, at, Bound(old(Now()), scope)))
      ensures AllBefore(claims, at + |PrintProps(props)| + 1)
      decreases props, 0
    {
      hide Part, Valid, Bound, AllBefore;
      ghost var before := Now();
      ghost var bound := Bound(before, scope);
      match props
      case NoProps =>
        NoPart(before, scope);
        StillBefore(claims, at, at + 1);
      case Shorthand(id, rest) =>
        RecordIdentifier(at, scope);
        ghost var middle := Now();
        PartKeeps(before, middle, scope, {}, {}, {(at, bound)}, scope);
        var next := at + |id| + 1;
        StillBefore(claims, at + 1, next);
        CollectProps(rest, next, scope);
        PartsTogether(before, middle, Now(), scope, {(at, bound)}, ClaimsProps(rest, next, bound));
      case Prop(key, value, rest) =>
        var start := at + |key + ": "|;
        var next := start + |PrintExpr(value)| + 1;
        StillBefore(claims, at, start);
        CollectExpr(value, start, scope);
        ghost var middle := Now();
        PartKeeps(before, middle, scope, {}, {}, ClaimsExpr(value, start, bound), scope);
        CollectProps(rest, next, scope);
        PartsTogether(before, middle, Now(), scope, ClaimsExpr(value, start, bound), ClaimsProps(rest, next, bound));
    }

    /** The fallbacks of parameters; their names were bound when the function's scope was opened. */
    method CollectParams(params: Params, at: nat, scope: nat)
      requires Valid(Now()) && scope < |records| && AllBefore(claims, at)
      modifies this`records, this`scopeOf, this`expected, this`claims
      ensures Part(old(Now()), Now(), scope, {}, {}, ClaimsParams(params, at, Bound(old(Now()), scope)))
      ensures AllBefore(claims, at + |PrintParams(params)| + 1)
      decreases params, 0
    {
      hide Part, Valid, Bound;
      ghost var before := Now();
      ghost var bound := Bound(before, scope);
      match params
      case NoParams => NoPart(before, scope);
      case Plain(id, rest) => CollectParams(rest, at + |id + ","|, scope);
      case Defaulted(id, fallback, rest) =>
        var start := at + |id + "="|;
        var next := start + |PrintExpr(fallback)| + 1;
        CollectExpr(fallback, start, scope);
        ghost var middle := Now();
        PartKeeps(before, middle, scope, {}, {}, ClaimsExpr(fallback, start, bound), scope);
        CollectParams(rest, next, scope);
        PartsTogether(before, middle, Now(), scope, ClaimsExpr(fallback, start, bound), ClaimsParams(rest, next, bound));
    }

    /** The scopes of a function, with its parameters' names. */
    method OpenFunction(names: set<string>, params: Params, ghost body: Stmts, parent: nat) returns (scope: nat, block: nat)
      requires Valid(Now()) && parent < |records|
      modifies this`records, this`expected
      ensures FunctionOpened(old(Now()), Now(), parent, names, params, body) && scope == old(|records|) && block == scope + 2
    {
      ghost var before := Now();
      scope := NewScope(parent, true, names, names + ParamNames(params));
      OpenedValid(before, Now(), parent, true, names, names + ParamNames(params));
      BindParams(names, params, scope);
      ghost var withParams := Now();
      OpenedValid(before, withParams, parent, true, names + ParamNames(params), names + ParamNames(params));
      var bodyScope := NewScope(scope, true, {}, Hoisted(body));
      OpenedValid(withParams, Now(), scope, true, {}, Hoisted(body));
      block := NewScope(bodyScope, false, {}, Lexical(body));
    }

    method BindParams(ghost names: set<string>, params: Params, scope: nat)
      requires Valid(Now()) && scope == |records| - 1 && records[scope].bindings == names
      modifies this`records
      ensures Valid(Now())
      ensures records == old(records)[scope := old(records)[scope].(bindings := names + ParamNames(params))]
      decreases params
    {
      hide Valid;
      match params
      case NoParams =>
        assert names + ParamNames(params) == names;
      case Plain(id, rest) =>
        AddBinding(scope, id);
        BindParams(names + {id}, rest, scope);
        assert names + {id} + ParamNames(rest) == names + ParamNames(params);
      case Defaulted(id, _, rest) =>
        AddBinding(scope, id);
        BindParams(names + {id}, rest, scope);
        assert names + {id} + ParamNames(rest) == names + ParamNames(params);
    }

    method CollectFunctionExpr(params: Params, body: Stmts, at: nat, scope: nat)
      requires Valid(Now()) && scope < |records| && AllBefore(claims, at)
      modifies this`records, this`scopeOf, this`expected, this`claims
      ensures Part(old(Now()), Now(), scope, {}, {}, ClaimsExpr(Function(params, body), at, Bound(old(Now()), scope)))
      ensures AllBefore(claims, at + |PrintExpr(Function(params, body))| + 1)
      decreases Function(params, body), 0
    {
      hide Part, Valid, Bound, FunctionOpened, InFunction, PrintExpr, PrintParams, PrintStmts, ClaimsExpr, ClaimsParams, ClaimsStmts, BoundInParams, BoundInBody;
      ghost var before := Now();
      ghost var bound := Bound(before, scope);
      FunctionLayout(params, body, at, bound);
      var start := at + |"(function ("|;
      var inner := start + |PrintParams(params)| + 2;
      var p, block := OpenFunction({"arguments"}, params, body, scope);
      ghost var entered := Now();
      FunctionScopes(before, entered, scope, {"arguments"}, params, body);
      CollectParams(params, start, p);
      ghost var middle := Now();
      ghost var c1, c2 := ClaimsParams(params, start, BoundInParams(params, bound)), ClaimsStmts(body, inner, BoundInBody(params, body, bound));
      PartKeeps(entered, middle, p, {}, {}, c1, block);
      CollectStmts(body, inner, block);
      FunctionPart(before, entered, middle, Now(), scope, {"arguments"}, params, body, c1, c2);
    }

    method CollectDeclare(id: string, params: Params, body: Stmts, at: nat, scope: nat)
      requires Valid(Now()) && scope < |records| && AllBefore(claims, at) && (id == REQUIRE ==> Bound(Now(), scope))
      modifies this`records, this`scopeOf, this`expected, this`claims
      ensures Part(old(Now()), Now(), scope, {id}, {}, ClaimsStmt(Declare(id, params, body), at, Bound(old(Now()), scope)))
      ensures AllBefore(claims, at + |PrintStmt(Declare(id, params, body))|)
      decreases Declare(id, params, body), 1
    {
      hide Part, Valid, Bound, ClaimsStmt, PrintStmt;
      ghost var before := Now();
      ghost var added := ClaimsStmt(Declare(id, params, body), at, Bound(before, scope));
      BindLexical(scope, id);
      ghost var named := Now();
      PartKeeps(before, named, scope, {id}, {}, {}, scope);
      PartClaims(before, named, scope, {id}, {}, {});
      CollectDeclaredFunction(id, params, body, at, scope);
      PartThen(before, named, Now(), scope, {id}, {}, {}, {}, {}, added);
      assert {id} + {} == {id} && NoNames() + NoNames() == NoNames() && {} + added == added;
    }

    method CollectDeclaredFunction(id: string, params: Params, body: Stmts, at: nat, scope: nat)
      requires Valid(Now()) && scope < |records| && AllBefore(claims, at) && (id == REQUIRE ==> Bound(Now(), scope))
      modifies this`records, this`scopeOf, this`expected, this`claims
      ensures Part(old(Now()), Now(), scope, {}, {}, ClaimsStmt(Declare(id, params, body), at, Bound(old(Now()), scope)))
      ensures AllBefore(claims, at + |PrintStmt(Declare(id, params, body))|)
      decreases Declare(id, params, body), 0
    {
      hide Part, Valid, Bound, FunctionOpened, InFunction, PrintStmt, PrintParams, PrintStmts, ClaimsStmt, ClaimsParams, ClaimsStmts, BoundInParams, BoundInBody;
      ghost var before := Now();
      ghost var bound := Bound(before, scope);
      DeclareLayout(id, params, body, at, bound);
      var start := at + |"function " + id + "("|;
      var inner := start + |PrintParams(params)| + 2;
      var p, block := OpenFunction({"arguments", id}, params, body, scope);
      ghost var entered := Now();
      FunctionScopes(before, entered, scope, {"arguments", id}, params, body);
      OpenedClaims(before, entered, scope, {"arguments", id}, params, body);
      CollectParams(params, start, p);
      ghost var middle := Now();
      ghost var c1, c2 := ClaimsParams(params, start, BoundInParams(params, bound)), ClaimsStmts(body, inner, BoundInBody(params, body, bound));
      PartKeeps(entered, middle, p, {}, {}, c1, block);
      CollectStmts(body, inner, block);
      FunctionPart(before, entered, middle, Now(), scope, {"arguments", id}, params, body, c1, c2);
    }

    method CollectBlock(body: Stmts, at: nat, scope: nat)
      requires Valid(Now()) && scope < |records| && AllBefore(claims, at)
      modifies this`records, this`scopeOf, this`expected, this`claims
      ensures Part(old(Now()), Now(), scope, {}, HoistedHere(Hoisted(body), InFunction(old(Now()), scope)), ClaimsStmt(Block(body), at, Bound(old(Now()), scope)))
      ensures AllBefore(claims, at + |PrintStmt(Block(body))|)
      decreases Block(body), 0
    {
      hide Part, Valid, Bound, Hoisted, Lexical, ClaimsStmts, PrintStmts;
      ghost var before := Now();
      ghost var bound := Bound(before, scope);
      var block := NewScope(scope, false, {}, Lexical(body));
      ghost var entered := Now();
      OpenedValid(before, entered, scope, false, {}, Lexical(body));
      CollectStmts(body, at + 1, block);
      BlockPart(before, entered, Now(), scope, Lexical(body), HoistedHere(Hoisted(body), InFunction(before, scope)), ClaimsStmts(body, at + 1, BoundInBlock(body, bound)));
    }

    method CollectStmt(stmt: Stmt, at: nat, scope: nat)
      requires Valid(Now()) && scope < |records| && AllBefore(claims, at)
      requires REQUIRE in Lexical(Then(stmt, End)) ==> Bound(Now(), scope)
      modifies this`records, this`scopeOf, this`expected, this`claims
      ensures Part(old(Now()), Now(), scope, Lexical(Then(stmt, End)), HoistedHere(Hoisted(Then(stmt, End)), InFunction(old(Now()), scope)),
                   ClaimsStmt(stmt, at, Bound(old(Now()), scope)))
      ensures AllBefore(claims, at + |PrintStmt(stmt)|)
      decreases stmt, 2
    {
      hide Part, Valid, Bound, InFunction;
      ghost var before := Now();
      ghost var inFunction := InFunction(before, scope);
      assert HoistedHere({}, inFunction) == {};
      match stmt
      case Do(expr) =>
        HeadAndRest(stmt, End);
        assert Lexical(End) == {} && Hoisted(End) == {};
        CollectExpr(expr, at, scope);
      case Return(expr) =>
        assert Lexical(End) == {} && Hoisted(End) == {};
        CollectExpr(expr, at + |"return "|, scope);
      case Block(body) =>
        CollectBlock(body, at, scope);
        assert Hoisted(Then(stmt, End)) == Hoisted(body);
      case Declare(id, params, body) =>
        CollectDeclare(id, params, body, at, scope);
        assert Lexical(Then(stmt, End)) == {id};
      case Let(id, value) => CollectLet(id, value, at, scope);
      case Var(id, value) => CollectVar(id, value, at, scope);
    }

    method CollectLet(id: string, value: Expr, at: nat, scope: nat)
      requires Valid(Now()) && scope < |records| && AllBefore(claims, at)
      modifies this`records, this`scopeOf, this`expected, this`claims
      ensures Part(old(Now()), Now(), scope, Lexical(Then(Let(id, value), End)), HoistedHere(Hoisted(Then(Let(id, value), End)), InFunction(old(Now()), scope)),
                   ClaimsStmt(Let(id, value), at, Bound(old(Now()), scope)))
      ensures AllBefore(claims, at + |PrintStmt(Let(id, value))|)
      decreases Let(id, value), 1
    {
      hide Part, Valid, Bound, InFunction, PrintExpr, PrintStmt, ClaimsExpr, ClaimsStmt, Lexical, Hoisted;
      ghost var before := Now();
      var start := at + |"let " + id + "="|;
      LetLayout(id, value, at, Bound(before, scope));
      ghost var added := ClaimsExpr(value, start, Bound(before, scope));
      BindLexical(scope, id);
      ghost var named := Now();
      PartKeeps(before, named, scope, {id}, {}, {}, scope);
      PartClaims(before, named, scope, {id}, {}, {});
      CollectExpr(value, start, scope);
      PartThen(before, named, Now(), scope, {id}, {}, {}, {}, {}, added);
      assert {id} + {} == {id} && {} + added == added && NoNames() + NoNames() == NoNames();
      assert HoistedHere({}, InFunction(before, scope)) == {};
    }

    method CollectVar(id: string, value: Expr, at: nat, scope: nat)
      requires Valid(Now()) && scope < |records| && AllBefore(claims, at)
      modifies this`records, this`scopeOf, this`expected, this`claims
      ensures Part(old(Now()), Now(), scope, Lexical(Then(Var(id, value), End)), HoistedHere(Hoisted(Then(Var(id, value), End)), InFunction(old(Now()), scope)),
                   ClaimsStmt(Var(id, value), at, Bound(old(Now()), scope)))
      ensures AllBefore(claims, at + |PrintStmt(Var(id, value))|)
      decreases Var(id, value), 1
    {
      hide Part, Valid, Bound, InFunction, PrintExpr, PrintStmt, ClaimsExpr, ClaimsStmt, Lexical, Hoisted, HoistedHere;
      ghost var before := Now();
      ghost var hoisted := HoistedHere({id}, InFunction(before, scope));
      var start := at + |"var " + id + "="|;
      LetLayout(id, value, at, Bound(before, scope));
      ghost var added := ClaimsExpr(value, start, Bound(before, scope));
      BindHoisted(scope, id);
      ghost var named := Now();
      PartKeeps(before, named, scope, {}, hoisted, {}, scope);
      PartClaims(before, named, scope, {}, hoisted, {});
      CollectExpr(value, start, scope);
      PartThen(before, named, Now(), scope, {}, hoisted, {}, {}, {}, added);
      assert hoisted + {} == hoisted && {} + added == added && NoNames() + NoNames() == NoNames();
    }

    /** collectRendererScopes over a list of statements. */
    method CollectStmts(stmts: Stmts, at: nat, scope: nat)
      requires Valid(Now()) && scope < |records| && AllBefore(claims, at)
      requires REQUIRE in Lexical(stmts) ==> Bound(Now(), scope)
      modifies this`records, this`scopeOf, this`expected, this`claims
      ensures Part(old(Now()), Now(), scope, Lexical(stmts), HoistedHere(Hoisted(stmts), InFunction(old(Now()), scope)),
                   ClaimsStmts(stmts, at, Bound(old(Now()), scope)))
      ensures AllBefore(claims, at + |PrintStmts(stmts)|)
      decreases stmts, 0
    {
      hide Part, Valid, Bound, InFunction;
      ghost var before := Now();
      ghost var bound, inFunction := Bound(before, scope), InFunction(before, scope);
      match stmts
      case End =>
        NoPart(before, scope);
        assert HoistedHere(Hoisted(End), inFunction) == {};
      case Then(head, rest) =>
        var next := at + |PrintStmt(head)|;
        HeadAndRest(head, rest);
        CollectStmt(head, at, scope);
        ghost var middle := Now();
        ghost var l1, h1, c1 := Lexical(Then(head, End)), HoistedHere(Hoisted(Then(head, End)), inFunction), ClaimsStmt(head, at, bound);
        PartKeeps(before, middle, scope, l1, h1, c1, scope);
        CollectStmts(rest, next, scope);
        ghost var l2, h2, c2 := Lexical(rest), HoistedHere(Hoisted(rest), inFunction), ClaimsStmts(rest, next, bound);
        PartThen(before, middle, Now(), scope, l1, h1, c1, l2, h2, c2);
        assert h1 + h2 == HoistedHere(Hoisted(stmts), inFunction);
    }

    // ---------- the second pass ----------

    /** rendererScopeBinds for the wrapper's require. */
    method ScopeBindsRequire(scope: nat) returns (binds: bool)
      requires Valid(Now()) && Complete(Now()) && scope < |records|
      ensures binds <==> Bound(Now(), scope)
    {
      var candidate: int := scope;
      while candidate != NO_PARENT
        invariant NO_PARENT <= candidate < |records| && BindsRequire(records, expected, candidate) == Bound(Now(), scope)
        decreases candidate
      {
        if REQUIRE in records[candidate].bindings { return true; }
        candidate := records[candidate].parent;
      }
      return false;
    }

    /** An identifier that may be the wrapper's require. */
    method VisitName(id: string, at: nat, value: string, ghost chain: Chain)
      requires Valid(Now()) && Complete(Now()) && (at, ScopeBinds(chain, REQUIRE)) in claims
      modifies this`replacements
      ensures replacements == old(replacements) + EditsName(id, at, chain, value)
    {
      hide ScopeBinds;
      assert at in scopeOf && scopeOf[at] < |records| && Bound(Now(), scopeOf[at]) == ScopeBinds(chain, REQUIRE);
      var binds := ScopeBindsRequire(scopeOf[at]);
      if id == REQUIRE && !binds { replacements := replacements + [Edit(at, at + |id|, value)]; }
    }

    method VisitExpr(e: Expr, at: nat, helper: string, ghost chain: Chain)
      requires Valid(Now()) && Complete(Now()) && ClaimsExpr(e, at, ScopeBinds(chain, REQUIRE)) <= claims
      modifies this`replacements
      ensures replacements == old(replacements) + EditsExpr(e, at, chain, helper)
      decreases e, 1
    {
      hide Valid, Complete, ScopeBinds, EditsName, EditsParams, EditsStmts, EditsArgs, EditsProps, ClaimsParams, ClaimsStmts, ClaimsArgs, ClaimsProps;
      hide InParams, InBody, BoundInParams, BoundInBody, PrintExpr, PrintParams;
      match e
      case Number(_) =>
      case Text(_) =>
      case Name(id) => VisitName(id, at, helper, chain);
      case Call(callee, args) =>
        VisitCallee(callee, args, at, helper, chain);
        VisitArgs(args, at + |PrintExpr(callee)| + 1, helper, chain);
      case Function(params, body) =>
        var start := at + |"(function ("|;
        ChainsAgree(chain, params, body);
        VisitParams(params, start, helper, InParams(chain, params));
        VisitStmts(body, start + |PrintParams(params)| + 2, helper, InBody(chain, params, body));
      case Record(props) => VisitProps(props, at + 2, helper, chain);
      case Get(target, _) => VisitExpr(target, at, helper, chain);
      case Assign(id, value) => VisitExpr(value, at + |"(" + id + "="|, helper, chain);
    }

    /** The callee of a call: require with a literal is left to the bundler and handled once. */
    method VisitCallee(callee: Expr, args: Args, at: nat, helper: string, ghost chain: Chain)
      requires Valid(Now()) && Complete(Now()) && ClaimsExpr(callee, at, ScopeBinds(chain, REQUIRE)) <= claims
      modifies this`replacements
      ensures replacements == old(replacements) + if IsStaticCall(callee, args) then [] else EditsExpr(callee, at, chain, helper)
      decreases callee, 2
    {
      hide Valid, Complete, ScopeBinds, EditsName;
      if callee == Name(REQUIRE) && args.Arg? {
        if !IsStaticSpecifier(args) { VisitName(REQUIRE, at, helper, chain); }
      } else {
        VisitExpr(callee, at, helper, chain);
      }
    }

    method VisitArgs(args: Args, at: nat, helper: string, ghost chain: Chain)
      requires Valid(Now()) && Complete(Now()) && ClaimsArgs(args, at, ScopeBinds(chain, REQUIRE)) <= claims
      modifies this`replacements
      ensures replacements == old(replacements) + EditsArgs(args, at, chain, helper)
      decreases args, 1
    {
      hide Valid, Complete, ScopeBinds;
      match args
      case NoArgs =>
      case Arg(head, rest) =>
        VisitExpr(head, at, helper, chain);
        VisitArgs(rest, at + |PrintExpr(head)| + 1, helper, chain);
    }

    method VisitParams(params: Params, at: nat, helper: string, ghost chain: Chain)
      requires Valid(Now()) && Complete(Now()) && ClaimsParams(params, at, ScopeBinds(chain, REQUIRE)) <= claims
      modifies this`replacements
      ensures replacements == old(replacements) + EditsParams(params, at, chain, helper)
      decreases params, 1
    {
      hide Valid, Complete, ScopeBinds;
      match params
      case NoParams =>
      case Plain(id, rest) => VisitParams(rest, at + |id + ","|, helper, chain);
      case Defaulted(id, fallback, rest) =>
        var start := at + |id + "="|;
        VisitExpr(fallback, start, helper, chain);
        VisitParams(rest, start + |PrintExpr(fallback)| + 1, helper, chain);
    }

    method VisitProps(props: Props, at: nat, helper: string, ghost chain: Chain)
      requires Valid(Now()) && Complete(Now()) && ClaimsProps(props, at, ScopeBinds(chain, REQUIRE)) <= claims
      modifies this`replacements
      ensures replacements == old(replacements) + EditsProps(props, at, chain, helper)
      decreases props, 1
    {
      hide Valid, Complete, ScopeBinds, EditsName;
      match props
      case NoProps =>
      case Shorthand(id, rest) =>
        VisitName(id, at, "require: " + helper, chain);
        VisitProps(rest, at + |id| + 1, helper, chain);
      case Prop(key, value, rest) =>
        var start := at + |key + ": "|;
        VisitExpr(value, start, helper, chain);
        VisitProps(rest, start + |PrintExpr(value)| + 1, helper, chain);
    }

    method VisitStmt(stmt: Stmt, at: nat, helper: string, ghost chain: Chain)
      requires Valid(Now()) && Complete(Now()) && ClaimsStmt(stmt, at, ScopeBinds(chain, REQUIRE)) <= claims
      modifies this`replacements
      ensures replacements == old(replacements) + EditsStmt(stmt, at, chain, helper)
      decreases stmt, 1
    {
      hide Valid, Complete, ScopeBinds, EditsParams, EditsStmts, EditsExpr, ClaimsParams, ClaimsStmts, ClaimsExpr;
      hide InParams, InBody, InBlock, BoundInParams, BoundInBody, BoundInBlock, PrintParams;
      match stmt
      case Do(expr) => VisitExpr(expr, at, helper, chain);
      case Let(id, value) => VisitExpr(value, at + |"let " + id + "="|, helper, chain);
      case Var(id, value) => VisitExpr(value, at + |"var " + id + "="|, helper, chain);
      case Return(expr) => VisitExpr(expr, at + |"return "|, helper, chain);
      case Block(body) =>
        ChainsAgree(chain, NoParams, body);
        VisitStmts(body, at + 1, helper, InBlock(chain, body));
      case Declare(id, params, body) =>
        var start := at + |"function " + id + "("|;
        ChainsAgree(chain, params, body);
        VisitParams(params, start, helper, InParams(chain, params));
        VisitStmts(body, start + |PrintParams(params)| + 2, helper, InBody(chain, params, body));
    }

    method VisitStmts(stmts: Stmts, at: nat, helper: string, ghost chain: Chain)
      requires Valid(Now()) && Complete(Now()) && ClaimsStmts(stmts, at, ScopeBinds(chain, REQUIRE)) <= claims
      modifies this`replacements
      ensures replacements == old(replacements) + EditsStmts(stmts, at, chain, helper)
      decreases stmts, 1
    {
      hide Valid, Complete, ScopeBinds;
      match stmts
      case End =>
      case Then(head, rest) =>
        VisitStmt(head, at, helper, chain);
        VisitStmts(rest, at + |PrintStmt(head)|, helper, chain);
    }
  }

  /** The first pass is over. */
  ghost predicate Complete(v: View) {
    |v.expected| == |v.records| && forall i :: 0 <= i < |v.records| ==> v.records[i].bindings == v.expected[i]
  }

  /** Both passes over a module.  The table that was filled in place answers every lookup as the
      chain of enclosing declarations does. */
  method CollectReplacements(stmts: Stmts, helper: string) returns (replacements: seq<Edit>)
    ensures replacements == EditsStmts(stmts, 0, [RootScope(stmts)], helper)
  {
    var collector := new Collector(RootScope(stmts));
    ghost var start := collector.Now();
    RootIsBound(start, RootScope(stmts));
    collector.CollectStmts(stmts, 0, 0);
    RootCompleted(start, collector.Now(), stmts, ClaimsStmts(stmts, 0, Bound(start, 0)));
    collector.VisitStmts(stmts, 0, helper, [RootScope(stmts)]);
    replacements := collector.replacements;
  }

  lemma RootIsBound(v: View, root: set<string>)
    requires Valid(v) && v.records == [Scope(NO_PARENT, true, {})] && v.expected == [root]
    ensures Bound(v, 0) <==> ScopeBinds([root], REQUIRE)
    ensures Bound(v, 0) <==> REQUIRE in root
    ensures !InFunction(v, 0)
  {
    OneMoreScope([], root, REQUIRE);
    assert [] + [root] == [root];
    assert !BindsRequire(v.records, v.expected, NO_PARENT);
  }

  lemma RootCompleted(v: View, n: View, stmts: Stmts, added: set<Claim>)
    requires Valid(v) && v.records == [Scope(NO_PARENT, true, {})] && v.expected == [RootScope(stmts)] && v.claims == {}
    requires Part(v, n, 0, Lexical(stmts), HoistedHere(Hoisted(stmts), false), added)
    ensures Valid(n) && Complete(n) && n.claims == added
  {
    assert NearestFunction(v.records, 0) == 0;
    assert n.records[0].bindings == Filled(v.records, 0, 0, Lexical(stmts), HoistedHere(Hoisted(stmts), false));
    assert n.expected[0] == RootScope(stmts);
  }

  /** Where the parts of a function expression stand, and what is claimed in it. */
  lemma FunctionLayout(params: Params, body: Stmts, at: nat, bound: bool)
    ensures var e := Function(params, body);
            var start := at + |"(function ("|;
            var inner := start + |PrintParams(params)| + 2;
            && at + |PrintExpr(e)| + 1 >= inner + |PrintStmts(body)| + 1 && start >= at
            && (REQUIRE in Lexical(body) ==> BoundInBody(params, body, bound))
            && ClaimsExpr(e, at, bound) == ClaimsParams(params, start, BoundInParams(params, bound)) + ClaimsStmts(body, inner, BoundInBody(params, body, bound))
  {
  }

  lemma DeclareLayout(id: string, params: Params, body: Stmts, at: nat, bound: bool)
    ensures var stmt := Declare(id, params, body);
            var start := at + |"function " + id + "("|;
            var inner := start + |PrintParams(params)| + 2;
            && at + |PrintStmt(stmt)| == inner + |PrintStmts(body)| + 1 && start >= at
            && (REQUIRE in Lexical(body) ==> BoundInBody(params, body, bound))
            && ClaimsStmt(stmt, at, bound) == ClaimsParams(params, start, BoundInParams(params, bound)) + ClaimsStmts(body, inner, BoundInBody(params, body, bound))
  {
  }

  lemma LetLayout(id: string, value: Expr, at: nat, bound: bool)
    ensures var start := at + |"let " + id + "="|;
            && at + |PrintStmt(Let(id, value))| == start + |PrintExpr(value)| + 1 && ClaimsStmt(Let(id, value), at, bound) == ClaimsExpr(value, start, bound)
            && at + |PrintStmt(Var(id, value))| == start + |PrintExpr(value)| + 1 && ClaimsStmt(Var(id, value), at, bound) == ClaimsExpr(value, start, bound)
            && Lexical(Then(Let(id, value), End)) == {id} && Hoisted(Then(Let(id, value), End)) == {}
            && Lexical(Then(Var(id, value), End)) == {} && Hoisted(Then(Var(id, value), End)) == {id}
  {
    assert Lexical(End) == {} && Hoisted(End) == {};
    assert |"let " + id + "="| == |"var " + id + "="|;
  }

  lemma HeadAndRest(head: Stmt, rest: Stmts)
    ensures Lexical(Then(head, rest)) == Lexical(Then(head, End)) + Lexical(rest)
    ensures Hoisted(Then(head, rest)) == Hoisted(Then(head, End)) + Hoisted(rest)
  {
  }

  lemma PartClaims(v: View, n: View, scope: nat, lexical: set<string>, hoisted: set<string>, added: set<Claim>)
    requires Part(v, n, scope, lexical, hoisted, added)
    ensures n.claims == v.claims + added
  {
  }

  lemma OpenedClaims(v: View, b: View, scope: nat, names: set<string>, params: Params, body: Stmts)
    requires FunctionOpened(v, b, scope, names, params, body)
    ensures b.claims == v.claims
  {
  }
}
