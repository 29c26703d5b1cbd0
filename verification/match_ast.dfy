/** The if-to-match rewriter of match_ast.py, over a model of the Python
    abstract syntax tree: `scan_if` collects an `if`/`elif` chain of
    `isinstance` tests into cases, `if_refactor` turns the cases into a
    `match` statement, `function_refactor` rewrites the leading statements
    of a function body and `if_match_refactor` picks the one-parameter
    functions of a module. A small evaluation model (`Semantics`) states
    what the rewrite is meant to keep: the statement that runs. */
module MatchAst {
  import opened Text

  // ---------------------------------------------------------------------
  // Syntax

  datatype BoolOperator = And | Or

  /** Expression nodes the rewriter looks at; every other kind of
      expression is an `OtherExpr` with its operands. */
  datatype Expr =
    | Name(id: string)
    | Call(func: Expr, args: seq<Expr>)
    | BoolOp(op: BoolOperator, values: seq<Expr>)
    | OtherExpr(kind: string, operands: seq<Expr>)

  /** `ast.arguments`: `args` holds the names of the ordinary positional parameters. */
  datatype Arguments = Arguments(posonlyargs: seq<string>, args: seq<string>, vararg: Option<string>,
                                 kwonlyargs: seq<string>, kwarg: Option<string>)

  /** `MatchClass(cls, [], [], [])` (the pattern `T()`) or the wildcard `MatchAs()` (the pattern `_`). */
  datatype Pattern = MatchClass(cls: Expr) | MatchAs

  /** Statement nodes; every other kind of statement is an `OtherStmt`. */
  datatype Stmt =
    | If(test: Expr, body: seq<Stmt>, orelse: seq<Stmt>)
    | FunctionDef(name: string, args: Arguments, body: seq<Stmt>)
    | Match(subject: Expr, cases: seq<MatchCase>)
    | OtherStmt(kind: string, exprs: seq<Expr>)

  /** A statement list, or the single node `scan_if` hands back in place
      of an else list when a later `elif` link is not recognised. */
  datatype Suite = Block(stmts: seq<Stmt>) | Lone(stmt: Stmt)

  datatype MatchCase = MatchCase(pattern: Pattern, guard: Option<Expr>, body: Suite)

  /** The `(varname, typename, condition, body)` tuple of one recognised link. */
  datatype Case = Case(varname: string, typename: string, condition: Option<Expr>, body: seq<Stmt>)

  /** What a recognised test contributes: the type name and the optional guard. */
  datatype Link = Link(typename: string, condition: Option<Expr>)

  /** The `(cases, orelse)` pair `scan_if` returns. */
  datatype Scan = Scan(cases: Option<seq<Case>>, orelse: Suite)

  // ---------------------------------------------------------------------
  // Recognising a link of the chain

  /** `isinstance(varname, typename)` */
  function IsInstanceCall(varname: string, typename: string): Expr {
    Call(Name("isinstance"), [Name(varname), Name(typename)])
  }

  /** The test a link with this type name and guard is written with:
      `isinstance(v, T)` alone, or `isinstance(v, T) and cond`. */
  function Guarded(varname: string, typename: string, condition: Option<Expr>): Expr {
    match condition
    case None => IsInstanceCall(varname, typename)
    case Some(c) => BoolOp(And, [IsInstanceCall(varname, typename), c])
  }

  /** The two class patterns of `scan_if`: a call of `isinstance` with
      exactly two arguments, the variable and a bare name, alone or as the
      first of exactly two `and` operands. */
  function Recognise(test: Expr, varname: string): (r: Option<Link>)
    ensures r.Some? ==> test == Guarded(varname, r.value.typename, r.value.condition)
  {
    if test.Call? && test.func == Name("isinstance") && |test.args| == 2
       && test.args[0] == Name(varname) && test.args[1].Name? then
      assert test.args == [test.args[0], test.args[1]];
      Some(Link(test.args[1].id, None))
    else if test.BoolOp? && test.op == And && |test.values| == 2
            && test.values[0].Call? && test.values[0].func == Name("isinstance")
            && |test.values[0].args| == 2 && test.values[0].args[0] == Name(varname)
            && test.values[0].args[1].Name? then
      var call := test.values[0];
      assert call.args == [call.args[0], call.args[1]];
      assert test.values == [call, test.values[1]];
      Some(Link(call.args[1].id, Some(test.values[1])))
    else
      None
  }

  /** Every test of the two recognised shapes is recognised, with its own
      type name and guard: `Recognise` inverts `Guarded`. */
  lemma RecogniseGuarded(varname: string, typename: string, condition: Option<Expr>)
    ensures Recognise(Guarded(varname, typename, condition), varname) == Some(Link(typename, condition))
  {
    match condition
    case None =>
    case Some(c) =>
      var e := Guarded(varname, typename, condition);
      assert e.values[0] == IsInstanceCall(varname, typename);
  }

  /** A chain of three or more `and` operands is not a recognised test,
      nor is an `isinstance` call on another variable. */
  lemma RecogniseRejects(varname: string, other: string, typename: string, a: Expr, b: Expr)
    requires other != varname
    ensures Recognise(BoolOp(And, [IsInstanceCall(varname, typename), a, b]), varname) == None
    ensures Recognise(IsInstanceCall(other, typename), varname) == None
  {
    assert IsInstanceCall(other, typename).args[0] == Name(other);
  }

  // ---------------------------------------------------------------------
  // scan_if and if_refactor

  /** `scan_if(node, varname, test, body, orelse, cases)`: appends one case
      per recognised link, in chain order, and follows the chain while the
      else list is exactly one `if` statement. An unrecognised test hands
      back the incoming cases and the node itself. */
  function ScanIf(node: Stmt, varname: string, test: Expr, body: seq<Stmt>, orelse: seq<Stmt>,
                  cases: Option<seq<Case>>): (r: Scan)
    ensures Recognise(test, varname).None? ==> r == Scan(cases, Lone(node))
    ensures Recognise(test, varname).Some? ==>
      var link := Recognise(test, varname).value;
      var before := cases.GetOr([]);
      && r.cases.Some? && |r.cases.value| > |before|
      && r.cases.value[..|before| + 1] == before + [Case(varname, link.typename, link.condition, body)]
    decreases If(test, body, orelse)
  {
    match Recognise(test, varname)
    case None => Scan(cases, Lone(node))
    case Some(link) =>
      var collected := cases.GetOr([]) + [Case(varname, link.typename, link.condition, body)];
      if |orelse| == 1 && orelse[0].If? then
        var next := orelse[0];
        var r := ScanIf(next, varname, next.test, next.body, next.orelse, Some(collected));
        assert r.cases.value[..|collected|][..|collected| - 1 + 1] == r.cases.value[..|collected|];
        r
      else
        Scan(Some(collected), Block(orelse))
  }

  /** The case node for one collected case: `case T() if cond: body`. */
  function ClassCase(c: Case): MatchCase {
    MatchCase(MatchClass(Name(c.typename)), c.condition, Block(c.body))
  }

  function ClassCases(cases: seq<Case>): (r: seq<MatchCase>)
    ensures |r| == |cases| && forall i :: 0 <= i < |cases| ==> r[i] == ClassCase(cases[i])
  {
    seq(|cases|, i requires 0 <= i < |cases| => ClassCase(cases[i]))
  }

  /** `if_refactor(if_node, varname, cases, orelse)`: a `match` on the
      variable with one class-pattern case per collected case, in order,
      each with its guard and body, then exactly one wildcard case running
      the else part. */
  function IfRefactor(ifNode: Stmt, varname: string, cases: seq<Case>, orelse: Suite): (r: Stmt)
    ensures r.Match? && r.subject == Name(varname) && |r.cases| == |cases| + 1
    ensures forall i :: 0 <= i < |cases| ==>
      r.cases[i] == MatchCase(MatchClass(Name(cases[i].typename)), cases[i].condition, Block(cases[i].body))
    ensures r.cases[|cases|] == MatchCase(MatchAs, None, orelse)
  {
    Match(Name(varname), ClassCases(cases) + [MatchCase(MatchAs, None, orelse)])
  }

  /** What one statement of a function body becomes: an `if` statement with
      at least one recognised link is replaced by its `match`; any other
      statement is kept. */
  function RefactorStmt(stmt: Stmt, varname: string): (r: Stmt)
    ensures r == stmt <==> !(stmt.If? && Recognise(stmt.test, varname).Some?)
    ensures r != stmt ==> r.Match? && r.subject == Name(varname) && |r.cases| >= 2
  {
    if stmt.If? then
      var scan := ScanIf(stmt, varname, stmt.test, stmt.body, stmt.orelse, None);
      if scan.cases.Some? && |scan.cases.value| > 0 then IfRefactor(stmt, varname, scan.cases.value, scan.orelse)
      else stmt
    else stmt
  }

  /** Where the chain ends: after a recognised link whose else list is not
      a single `if`, the else part is that list; when the single `elif`
      that follows is not recognised, the else part is that `elif` node. */
  lemma ScanIfElse(node: Stmt, varname: string, test: Expr, body: seq<Stmt>, orelse: seq<Stmt>,
                   before: seq<Case>)
    requires Recognise(test, varname).Some?
    ensures var link := Recognise(test, varname).value;
      var collected := before + [Case(varname, link.typename, link.condition, body)];
      && (!(|orelse| == 1 && orelse[0].If?) ==>
            ScanIf(node, varname, test, body, orelse, Some(before)) == Scan(Some(collected), Block(orelse)))
      && (|orelse| == 1 && orelse[0].If? && Recognise(orelse[0].test, varname).None? ==>
            ScanIf(node, varname, test, body, orelse, Some(before)) == Scan(Some(collected), Lone(orelse[0])))
  {
  }

  /** Starting from no cases or from an empty list collects the same chain,
      and starting from earlier cases puts the chain after them. */
  lemma {:induction false} ScanIfAccumulates(node: Stmt, varname: string, test: Expr, body: seq<Stmt>,
                                             orelse: seq<Stmt>, before: seq<Case>)
    requires Recognise(test, varname).Some?
    ensures var start := ScanIf(node, varname, test, body, orelse, Some([]));
      && ScanIf(node, varname, test, body, orelse, None) == start
      && ScanIf(node, varname, test, body, orelse, Some(before))
         == Scan(Some(before + start.cases.value), start.orelse)
    decreases If(test, body, orelse)
  {
    var link := Recognise(test, varname).value;
    var c := Case(varname, link.typename, link.condition, body);
    assert [] + [c] == [c];
    if |orelse| == 1 && orelse[0].If? {
      var next := orelse[0];
      if Recognise(next.test, varname).Some? {
        ScanIfAccumulates(next, varname, next.test, next.body, next.orelse, [c]);
        ScanIfAccumulates(next, varname, next.test, next.body, next.orelse, before + [c]);
        var rest := ScanIf(next, varname, next.test, next.body, next.orelse, Some([]));
        assert before + [c] + rest.cases.value == before + ([c] + rest.cases.value);
      }
    }
  }

  // ---------------------------------------------------------------------
  // What running a statement means

  /** The parts of execution the rewrite depends on, in a state `S`:
      whether `isinstance(x, T)` holds, whether any other expression is
      true, and the effect of a statement that is neither `if` nor `match`. */
  datatype Semantics<!S> = Semantics(isInstance: (S, Expr, Expr) -> bool,
                                    truthy: (S, Expr) -> bool,
                                    step: (S, Stmt) -> S)

  /** Whether `e` is true as the test of an `if` or as a guard:
      `isinstance` asks the semantics, `and`/`or` combine their operands. */
  predicate Holds<S>(sem: Semantics<S>, s: S, e: Expr)
    decreases e
  {
    match e
    case BoolOp(And, values) => forall v :: v in values ==> Holds(sem, s, v)
    case BoolOp(Or, values) => exists v :: v in values && Holds(sem, s, v)
    case Call(Name("isinstance"), args) =>
      if |args| == 2 then sem.isInstance(s, args[0], args[1]) else sem.truthy(s, e)
    case _ => sem.truthy(s, e)
  }

  /** Whether a case is taken: the class pattern `T()` asks `isinstance(subject, T)`,
      the wildcard always matches, and the guard must then hold. The
      `TypeError` a class pattern raises when `T` is not bound to a class
      has no counterpart here. */
  predicate Fires<S>(sem: Semantics<S>, s: S, subject: Expr, c: MatchCase) {
    && (match c.pattern
        case MatchAs => true
        case MatchClass(cls) => sem.isInstance(s, subject, cls))
    && (c.guard.None? || Holds(sem, s, c.guard.value))
  }

  function ExecStmt<S>(sem: Semantics<S>, s: S, stmt: Stmt): S
    decreases stmt
  {
    match stmt
    case If(test, body, orelse) =>
      if Holds(sem, s, test) then ExecBlock(sem, s, body) else ExecBlock(sem, s, orelse)
    case Match(subject, cases) => ExecCases(sem, s, subject, cases)
    case _ => sem.step(s, stmt)
  }

  function ExecBlock<S>(sem: Semantics<S>, s: S, stmts: seq<Stmt>): S
    decreases stmts
  {
    if |stmts| == 0 then s else ExecBlock(sem, ExecStmt(sem, s, stmts[0]), stmts[1..])
  }

  /** The first case that fires runs; when none does, nothing runs. */
  function ExecCases<S>(sem: Semantics<S>, s: S, subject: Expr, cases: seq<MatchCase>): S
    decreases cases
  {
    if |cases| == 0 then s
    else if Fires(sem, s, subject, cases[0]) then ExecCase(sem, s, cases[0])
    else ExecCases(sem, s, subject, cases[1..])
  }

  function ExecCase<S>(sem: Semantics<S>, s: S, c: MatchCase): S
    decreases c
  {
    ExecSuite(sem, s, c.body)
  }

  function ExecSuite<S>(sem: Semantics<S>, s: S, suite: Suite): S
    decreases suite
  {
    match suite
    case Block(stmts) => ExecBlock(sem, s, stmts)
    case Lone(stmt) => ExecStmt(sem, s, stmt)
  }

  lemma {:induction false} ExecBlockAppend<S>(sem: Semantics<S>, s: S, a: seq<Stmt>, b: seq<Stmt>)
    ensures ExecBlock(sem, s, a + b) == ExecBlock(sem, ExecBlock(sem, s, a), b)
    decreases |a|
  {
    if |a| == 0 {
      assert a + b == b;
    } else {
      assert (a + b)[0] == a[0];
      assert (a + b)[1..] == a[1..] + b;
      ExecBlockAppend(sem, ExecStmt(sem, s, a[0]), a[1..], b);
    }
  }

  /** A collected case fires exactly when the test it came from holds. */
  lemma CaseFiresIffTestHolds<S>(sem: Semantics<S>, s: S, varname: string, typename: string,
                                 condition: Option<Expr>, body: seq<Stmt>)
    ensures Fires(sem, s, Name(varname), ClassCase(Case(varname, typename, condition, body)))
      == Holds(sem, s, Guarded(varname, typename, condition))
  {
    var call := IsInstanceCall(varname, typename);
    assert Holds(sem, s, call) == sem.isInstance(s, Name(varname), Name(typename));
    match condition
    case None =>
    case Some(c) =>
      var values := [call, c];
      assert forall v :: v in values <==> v == call || v == c;
  }

  /** A trailing wildcard case always runs its body. */
  lemma WildcardRuns<S>(sem: Semantics<S>, s: S, subject: Expr, body: Suite)
    ensures ExecCases(sem, s, subject, [MatchCase(MatchAs, None, body)]) == ExecSuite(sem, s, body)
  {
    var wild := MatchCase(MatchAs, None, body);
    assert Fires(sem, s, subject, wild);
    assert ExecCase(sem, s, wild) == ExecSuite(sem, s, body);
  }

  /** The cases and else part `scan_if` collects from a chain whose first
      test is recognised, turned into a `match`, run exactly what the chain
      runs. */
  lemma {:induction false} ScanIfSound<S>(sem: Semantics<S>, s: S, varname: string,
                                          test: Expr, body: seq<Stmt>, orelse: seq<Stmt>)
    requires Recognise(test, varname).Some?
    ensures var node := If(test, body, orelse);
      var scan := ScanIf(node, varname, test, body, orelse, Some([]));
      ExecCases(sem, s, Name(varname), ClassCases(scan.cases.value) + [MatchCase(MatchAs, None, scan.orelse)])
        == ExecStmt(sem, s, node)
    decreases If(test, body, orelse)
  {
    var link := Recognise(test, varname).value;
    var c := Case(varname, link.typename, link.condition, body);
    var subject := Name(varname);
    assert [] + [c] == [c];
    if |orelse| == 1 && orelse[0].If? {
      var next := orelse[0];
      assert ExecBlock(sem, s, orelse) == ExecStmt(sem, s, next) by {
        assert orelse[1..] == [];
      }
      if Recognise(next.test, varname).Some? {
        ScanIfAccumulates(next, varname, next.test, next.body, next.orelse, [c]);
        ScanIfSound(sem, s, varname, next.test, next.body, next.orelse);
        var rest := ScanIf(next, varname, next.test, next.body, next.orelse, Some([]));
        LinkStep(sem, s, varname, test, body, orelse, rest.cases.value, rest.orelse);
      } else {
        WildcardRuns(sem, s, subject, Lone(next));
        assert ClassCases([]) + [MatchCase(MatchAs, None, Lone(next))] == [MatchCase(MatchAs, None, Lone(next))];
        LinkStep(sem, s, varname, test, body, orelse, [], Lone(next));
        assert [c] + [] == [c];
      }
    } else {
      WildcardRuns(sem, s, subject, Block(orelse));
      assert ClassCases([]) + [MatchCase(MatchAs, None, Block(orelse))] == [MatchCase(MatchAs, None, Block(orelse))];
      LinkStep(sem, s, varname, test, body, orelse, [], Block(orelse));
      assert [c] + [] == [c];
    }
  }

  /** One link of the chain: when the cases collected after it run what its
      else list runs, putting its own case in front runs what the whole
      `if` statement runs. */
  lemma LinkStep<S>(sem: Semantics<S>, s: S, varname: string, test: Expr, body: seq<Stmt>, orelse: seq<Stmt>,
                    later: seq<Case>, orelseSuite: Suite)
    requires Recognise(test, varname).Some?
    requires ExecCases(sem, s, Name(varname), ClassCases(later) + [MatchCase(MatchAs, None, orelseSuite)])
             == ExecBlock(sem, s, orelse)
    ensures var link := Recognise(test, varname).value;
      var c := Case(varname, link.typename, link.condition, body);
      ExecCases(sem, s, Name(varname), ClassCases([c] + later) + [MatchCase(MatchAs, None, orelseSuite)])
        == ExecStmt(sem, s, If(test, body, orelse))
  {
    var link := Recognise(test, varname).value;
    var c := Case(varname, link.typename, link.condition, body);
    CaseFiresIffTestHolds(sem, s, varname, link.typename, link.condition, body);
    var tail := ClassCases(later) + [MatchCase(MatchAs, None, orelseSuite)];
    var all := ClassCases([c] + later) + [MatchCase(MatchAs, None, orelseSuite)];
    assert all == [ClassCase(c)] + tail;
    assert all[1..] == tail;
    assert ExecCase(sem, s, ClassCase(c)) == ExecBlock(sem, s, body);
  }

  /** Replacing one statement by its refactoring changes nothing that runs. */
  lemma RefactorStmtPreserves<S>(sem: Semantics<S>, s: S, stmt: Stmt, varname: string)
    ensures ExecStmt(sem, s, RefactorStmt(stmt, varname)) == ExecStmt(sem, s, stmt)
  {
    if stmt.If? && Recognise(stmt.test, varname).Some? {
      ScanIfAccumulates(stmt, varname, stmt.test, stmt.body, stmt.orelse, []);
      ScanIfSound(sem, s, varname, stmt.test, stmt.body, stmt.orelse);
    }
  }

  // ---------------------------------------------------------------------
  // function_refactor

  /** How many statements at the head of `body` are `if` statements. */
  function LeadingIfs(body: seq<Stmt>): (n: nat)
    ensures n <= |body|
    ensures forall i :: 0 <= i < n ==> body[i].If?
    ensures n < |body| ==> !body[n].If?
  {
    if |body| == 0 || !body[0].If? then 0 else 1 + LeadingIfs(body[1..])
  }

  function RefactorAll(stmts: seq<Stmt>, varname: string): (r: seq<Stmt>)
    ensures |r| == |stmts| && forall i :: 0 <= i < |stmts| ==> r[i] == RefactorStmt(stmts[i], varname)
  {
    seq(|stmts|, i requires 0 <= i < |stmts| => RefactorStmt(stmts[i], varname))
  }

  /** The body `function_refactor` stores: its leading `if` statements,
      each refactored, and nothing from the first other statement on. */
  function RefactorLeadingIfs(body: seq<Stmt>, varname: string): seq<Stmt> {
    RefactorAll(body[..LeadingIfs(body)], varname)
  }

  /** The body the rewrite is meant to produce: the leading `if`
      statements refactored and every later statement kept. */
  function RefactorBody(body: seq<Stmt>, varname: string): (r: seq<Stmt>)
    ensures |r| == |body|
  {
    RefactorLeadingIfs(body, varname) + body[LeadingIfs(body)..]
  }

  lemma {:induction false} RefactorAllPreserves<S>(sem: Semantics<S>, s: S, stmts: seq<Stmt>, varname: string)
    ensures ExecBlock(sem, s, RefactorAll(stmts, varname)) == ExecBlock(sem, s, stmts)
    decreases |stmts|
  {
    if |stmts| > 0 {
      RefactorStmtPreserves(sem, s, stmts[0], varname);
      assert RefactorAll(stmts, varname)[1..] == RefactorAll(stmts[1..], varname);
      RefactorAllPreserves(sem, ExecStmt(sem, s, stmts[0]), stmts[1..], varname);
    }
  }

  /** As written, the new body runs only the leading `if` statements of the old one. */
  lemma RefactorLeadingIfsRunsPrefix<S>(sem: Semantics<S>, s: S, body: seq<Stmt>, varname: string)
    ensures ExecBlock(sem, s, RefactorLeadingIfs(body, varname)) == ExecBlock(sem, s, body[..LeadingIfs(body)])
  {
    RefactorAllPreserves(sem, s, body[..LeadingIfs(body)], varname);
  }

  /** A body that begins with a statement other than `if` loses it: the
      body `[return x]` becomes empty, and a semantics in which every such
      statement counts one step tells the two apart. */
  lemma RefactorLeadingIfsDropsTail()
    ensures var body := [OtherStmt("Return", [Name("x")])];
      var count := Semantics((s: int, a: Expr, b: Expr) => false, (s: int, e: Expr) => false,
                             (s: int, stmt: Stmt) => s + 1);
      && RefactorLeadingIfs(body, "x") == []
      && ExecBlock(count, 0, body) == 1
      && ExecBlock(count, 0, RefactorLeadingIfs(body, "x")) == 0
  {
    var body := [OtherStmt("Return", [Name("x")])];
    assert LeadingIfs(body) == 0;
  }

  /** The corrected body runs exactly what the original body runs. */
  lemma RefactorBodyPreserves<S>(sem: Semantics<S>, s: S, body: seq<Stmt>, varname: string)
    ensures ExecBlock(sem, s, RefactorBody(body, varname)) == ExecBlock(sem, s, body)
  {
    var n := LeadingIfs(body);
    RefactorAllPreserves(sem, s, body[..n], varname);
    ExecBlockAppend(sem, s, RefactorLeadingIfs(body, varname), body[n..]);
    ExecBlockAppend(sem, s, body[..n], body[n..]);
    assert body[..n] + body[n..] == body;
  }

  /** `function_refactor(fct_node, name, varname)` as written: the loop over
      the body keeps refactored `if` statements and stops at the first
      other statement without keeping it. `name` is only printed. */
  method FunctionRefactor(fctNode: Stmt, name: string, varname: string) returns (r: Stmt)
    requires fctNode.FunctionDef?
    ensures r == FunctionDef(fctNode.name, fctNode.args, RefactorLeadingIfs(fctNode.body, varname))
  {
    var body := fctNode.body;
    var newBody := [];
    var k := 0;
    while k < |body|
      invariant k <= LeadingIfs(body)
      invariant newBody == RefactorAll(body[..k], varname)
    {
      var node := body[k];
      if !node.If? {
        // the first statement that is not an `if` ends the loop, unappended
        break;
      }
      var scan := ScanIf(node, varname, node.test, node.body, node.orelse, None);
      if scan.cases.Some? && |scan.cases.value| > 0 {
        node := IfRefactor(node, varname, scan.cases.value, scan.orelse);
      }
      assert body[..k + 1] == body[..k] + [body[k]];
      newBody := newBody + [node];
      k := k + 1;
    }
    r := FunctionDef(fctNode.name, fctNode.args, newBody);
  }

  /** `function_refactor` with the statements from the first non-`if` on
      kept after the refactored ones. */
  method FunctionRefactorKeepingRest(fctNode: Stmt, name: string, varname: string) returns (r: Stmt)
    requires fctNode.FunctionDef?
    ensures r == FunctionDef(fctNode.name, fctNode.args, RefactorBody(fctNode.body, varname))
  {
    r := FunctionRefactor(fctNode, name, varname);
    r := FunctionDef(r.name, r.args, r.body + fctNode.body[|r.body|..]);
  }

  // ---------------------------------------------------------------------
  // if_match_refactor

  /** The `FunctionDef(name, args=arguments(args=[arg(arg=varname)]))`
      pattern: a function with exactly one ordinary positional parameter,
      whatever its other parameters. */
  predicate Rewritable(node: Stmt) {
    node.FunctionDef? && |node.args.args| == 1
  }

  /** What a top-level node of the module becomes as written: a
      one-parameter function keeps only its refactored leading `if`
      statements. */
  function RefactorTop(node: Stmt): Stmt {
    if Rewritable(node) then FunctionDef(node.name, node.args, RefactorLeadingIfs(node.body, node.args.args[0])) else node
  }

  /** What a top-level node becomes with the corrected `function_refactor`. */
  function RefactorTopKeepingRest(node: Stmt): Stmt {
    if Rewritable(node) then FunctionDef(node.name, node.args, RefactorBody(node.body, node.args.args[0])) else node
  }

  /** `if_match_refactor` on the parsed module body, as written: each
      top-level one-parameter function goes through `function_refactor`
      on its own parameter, every other top-level node is left as it is. */
  method IfMatchRefactor(tree: seq<Stmt>) returns (r: seq<Stmt>)
    ensures |r| == |tree|
    ensures forall i :: 0 <= i < |tree| && Rewritable(tree[i]) ==>
      r[i] == FunctionDef(tree[i].name, tree[i].args, RefactorLeadingIfs(tree[i].body, tree[i].args.args[0]))
    ensures forall i :: 0 <= i < |tree| && !Rewritable(tree[i]) ==> r[i] == tree[i]
  {
    r := [];
    for i := 0 to |tree|
      invariant |r| == i
      invariant forall j :: 0 <= j < i ==> r[j] == RefactorTop(tree[j])
    {
      var node := tree[i];
      if node.FunctionDef? && |node.args.args| == 1 {
        node := FunctionRefactor(node, node.name, node.args.args[0]);
      }
      r := r + [node];
    }
  }

  /** `if_match_refactor` with the corrected `function_refactor`: each
      rewritten function keeps the statements after its leading `if`s. */
  method IfMatchRefactorKeepingRest(tree: seq<Stmt>) returns (r: seq<Stmt>)
    ensures |r| == |tree|
    ensures forall i :: 0 <= i < |tree| ==> r[i] == RefactorTopKeepingRest(tree[i])
  {
    r := [];
    for i := 0 to |tree|
      invariant |r| == i
      invariant forall j :: 0 <= j < i ==> r[j] == RefactorTopKeepingRest(tree[j])
    {
      var node := tree[i];
      if node.FunctionDef? && |node.args.args| == 1 {
        node := FunctionRefactorKeepingRest(node, node.name, node.args.args[0]);
      }
      r := r + [node];
    }
  }

  /** As written, a rewritten module node keeps its kind, name and
      parameters, but its body runs only the leading `if` statements of
      the old body. */
  lemma RefactorTopRunsPrefix<S>(sem: Semantics<S>, s: S, node: Stmt)
    ensures RefactorTop(node).FunctionDef? <==> node.FunctionDef?
    ensures !Rewritable(node) ==> RefactorTop(node) == node
    ensures Rewritable(node) ==>
      && RefactorTop(node).name == node.name && RefactorTop(node).args == node.args
      && ExecBlock(sem, s, RefactorTop(node).body) == ExecBlock(sem, s, node.body[..LeadingIfs(node.body)])
  {
    if Rewritable(node) {
      RefactorLeadingIfsRunsPrefix(sem, s, node.body, node.args.args[0]);
    }
  }

  /** With the corrected `function_refactor`, each rewritten module node
      keeps its kind, name and parameters, and its body runs exactly what
      the old body ran. */
  lemma RefactorTopKeepingRestPreserves<S>(sem: Semantics<S>, s: S, node: Stmt)
    ensures RefactorTopKeepingRest(node).FunctionDef? <==> node.FunctionDef?
    ensures !Rewritable(node) ==> RefactorTopKeepingRest(node) == node
    ensures node.FunctionDef? ==>
      && RefactorTopKeepingRest(node).name == node.name && RefactorTopKeepingRest(node).args == node.args
      && ExecBlock(sem, s, RefactorTopKeepingRest(node).body) == ExecBlock(sem, s, node.body)
  {
    if Rewritable(node) {
      RefactorBodyPreserves(sem, s, node.body, node.args.args[0]);
    }
  }
}
