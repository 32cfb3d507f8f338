/** The scope tree of a program (src/scope.rs): one scope for the program and
    one per function definition, each holding the names declared directly in
    it, the names used directly in it, and the scopes of the functions it
    defines. */
module Scopes {
  import opened Ast

  datatype SymbolKind = Variable | Function | FunctionParameter

  datatype Symbol = Symbol(symbol: string, kind: SymbolKind)

  datatype Scope = Scope(
    scopeName: string,
    symbolTable: seq<Symbol>,  // declarations, in declaration order
    usages: seq<Symbol>,       // variable references and calls made directly here
    childrenScopes: seq<Scope>)

  const ProgramScopeName: string := "(program)"

  // ---------------------------------------------------------------------------
  // Usage extraction

  /** The usages of an expression: a pre-order, left-to-right walk that yields
      one Variable usage per identifier and, per call, one Function usage for
      the callee followed by the usages of its arguments. */
  function ExpressionUsages(e: Expression): seq<Symbol> {
    match e
    case Identifier(x, _) => [Symbol(x, Variable)]
    case Unary(_, a) => ExpressionUsages(a)
    case Binary(_, a, b) => ExpressionUsages(a) + ExpressionUsages(b)
    case IfElseExpression(c, t, f) => ExpressionUsages(c) + ExpressionUsages(t) + ExpressionUsages(f)
    case FunctionCall(g, args) => [Symbol(g, Function)] + ArgumentsUsages(args)
    case _ => []
  }

  /** The usages of a call's arguments, one argument after the other. */
  function ArgumentsUsages(args: seq<Expression>): seq<Symbol> {
    if args == [] then [] else ExpressionUsages(args[0]) + ArgumentsUsages(args[1..])
  }

  /** An expression's usages are exactly its identifiers, as variables, and
      its callees, as functions; none is a parameter. */
  lemma {:induction false} UsagesAreReferences(e: Expression)
    ensures |ExpressionUsages(e)| == UsageNodeCount(e)
    ensures forall u :: u in ExpressionUsages(e) ==> u.kind != FunctionParameter
    ensures forall x :: Symbol(x, Variable) in ExpressionUsages(e) <==> x in IdentifierNames(e)
    ensures forall x :: Symbol(x, Function) in ExpressionUsages(e) <==> x in CalleeNames(e)
    decreases e, 1
  {
    match e
    case Unary(_, a) =>
      UsagesAreReferences(a);
    case Binary(_, a, b) =>
      UsagesAreReferences(a);
      UsagesAreReferences(b);
    case IfElseExpression(c, t, f) =>
      UsagesAreReferences(c);
      UsagesAreReferences(t);
      UsagesAreReferences(f);
    case FunctionCall(g, args) =>
      ArgumentsAreReferences(args);
    case _ =>
  }

  lemma {:induction false} ArgumentsAreReferences(args: seq<Expression>)
    ensures |ArgumentsUsages(args)| == ArgumentsUsageNodeCount(args)
    ensures forall u :: u in ArgumentsUsages(args) ==> u.kind != FunctionParameter
    ensures forall x :: Symbol(x, Variable) in ArgumentsUsages(args) <==> x in ArgumentsIdentifierNames(args)
    ensures forall x :: Symbol(x, Function) in ArgumentsUsages(args) <==> x in ArgumentsCalleeNames(args)
    decreases args, 0
  {
    if args != [] {
      UsagesAreReferences(args[0]);
      ArgumentsAreReferences(args[1..]);
    }
  }

  lemma {:induction false} ArgumentsUsagesAppend(a1: seq<Expression>, a2: seq<Expression>)
    ensures ArgumentsUsages(a1 + a2) == ArgumentsUsages(a1) + ArgumentsUsages(a2)
  {
    if a1 != [] {
      assert (a1 + a2)[1..] == a1[1..] + a2;
      ArgumentsUsagesAppend(a1[1..], a2);
    } else {
      assert a1 + a2 == a2;
    }
  }

  lemma ArgumentsUsagesSnoc(args: seq<Expression>, i: nat)
    requires i < |args|
    ensures ArgumentsUsages(args[..i + 1]) == ArgumentsUsages(args[..i]) + ExpressionUsages(args[i])
  {
    assert args[..i + 1] == args[..i] + [args[i]];
    ArgumentsUsagesAppend(args[..i], [args[i]]);
    assert [args[i]][1..] == [];
  }

  /** Collects the usages of an expression into a fresh list, recursing into
      operands and appending each call argument's usages in turn. */
  method ExtractSymbols(e: Expression) returns (symbols: seq<Symbol>)
    ensures symbols == ExpressionUsages(e)
    decreases e
  {
    match e {
      case Identifier(x, _) =>
        symbols := [Symbol(x, Variable)];
      case Unary(_, a) =>
        symbols := ExtractSymbols(a);
      case Binary(_, a, b) =>
        var left := ExtractSymbols(a);
        var right := ExtractSymbols(b);
        symbols := left + right;
      case IfElseExpression(c, t, f) =>
        var condition := ExtractSymbols(c);
        var trueBranch := ExtractSymbols(t);
        var falseBranch := ExtractSymbols(f);
        symbols := condition + trueBranch + falseBranch;
      case FunctionCall(g, args) =>
        symbols := [Symbol(g, Function)];
        ghost var callee := symbols;
        for i := 0 to |args|
          invariant symbols == callee + ArgumentsUsages(args[..i])
        {
          ArgumentsUsagesSnoc(args, i);
          assert args[i] in args;
          var argument := ExtractSymbols(args[i]);
          assert (callee + ArgumentsUsages(args[..i])) + argument == callee + (ArgumentsUsages(args[..i]) + argument);
          symbols := symbols + argument;
        }
        assert args[..|args|] == args;
      case _ =>
        symbols := [];
    }
  }

  // ---------------------------------------------------------------------------
  // Specification of the builders

  /** The symbol a statement declares in the level it appears in. */
  function StatementSymbol(s: Statement): Symbol {
    match s
    case AssignmentStmt(a) => Symbol(a.identifier, Variable)
    case FunctionDefStmt(f) => Symbol(f.functionName, Function)
  }

  function LevelSymbols(stmts: seq<Statement>): seq<Symbol> {
    seq(|stmts|, i requires 0 <= i < |stmts| => StatementSymbol(stmts[i]))
  }

  function ParameterSymbols(params: seq<Parameter>): seq<Symbol> {
    seq(|params|, i requires 0 <= i < |params| => Symbol(params[i].parameterName, FunctionParameter))
  }

  /** Usages of one level: the right-hand sides of its assignments, in order. */
  function LevelUsages(stmts: seq<Statement>): seq<Symbol> {
    if stmts == [] then []
    else match stmts[0]
      case AssignmentStmt(a) => ExpressionUsages(a.rhs) + LevelUsages(stmts[1..])
      case FunctionDefStmt(_) => LevelUsages(stmts[1..])
  }

  /** Child scopes of one level: one per function definition, in order. */
  function LevelChildren(stmts: seq<Statement>): seq<Scope> {
    if stmts == [] then [] else StatementChildren(stmts[0]) + LevelChildren(stmts[1..])
  }

  function StatementChildren(s: Statement): seq<Scope> {
    match s
    case AssignmentStmt(_) => []
    case FunctionDefStmt(f) => [FunctionScopeOf(f)]
  }

  function ProgramScopeOf(p: Program): Scope {
    Scope(ProgramScopeName, LevelSymbols(p.statements), LevelUsages(p.statements), LevelChildren(p.statements))
  }

  function FunctionScopeOf(f: FunctionDefinition): Scope {
    var body := f.functionBody.statements;
    Scope(f.functionName, ParameterSymbols(f.functionParameters) + LevelSymbols(body),
          LevelUsages(body), LevelChildren(body))
  }

  // ---------------------------------------------------------------------------
  // The builders

  /** The usages a statement adds to its own level. */
  function StatementUsages(s: Statement): seq<Symbol> {
    match s
    case AssignmentStmt(a) => ExpressionUsages(a.rhs)
    case FunctionDefStmt(_) => []
  }

  /** Appending statement `i` to the first `i` statements of a level adds its
      symbol, its usages and its child scope at the end. */
  lemma LevelSnoc(stmts: seq<Statement>, i: nat)
    requires i < |stmts|
    ensures LevelSymbols(stmts[..i + 1]) == LevelSymbols(stmts[..i]) + [StatementSymbol(stmts[i])]
    ensures LevelUsages(stmts[..i + 1]) == LevelUsages(stmts[..i]) + StatementUsages(stmts[i])
    ensures LevelChildren(stmts[..i + 1]) == LevelChildren(stmts[..i]) + StatementChildren(stmts[i])
  {
    assert stmts[..i + 1] == stmts[..i] + [stmts[i]];
    LevelUsagesAppend(stmts[..i], [stmts[i]]);
    LevelChildrenAppend(stmts[..i], [stmts[i]]);
    assert [stmts[i]][1..] == [];
  }

  method BuildProgramScope(p: Program) returns (s: Scope)
    ensures s == ProgramScopeOf(p)
  {
    var symbolTable: seq<Symbol> := [];
    var usages: seq<Symbol> := [];
    var childrenScopes: seq<Scope> := [];
    var statements := p.statements;
    for i := 0 to |statements|
      invariant symbolTable == LevelSymbols(statements[..i])
      invariant usages == LevelUsages(statements[..i])
      invariant childrenScopes == LevelChildren(statements[..i])
    {
      LevelSnoc(statements, i);
      match statements[i] {
        case AssignmentStmt(assignment) =>
          symbolTable := symbolTable + [Symbol(assignment.identifier, Variable)];
          var found := ExtractSymbols(assignment.rhs);
          usages := usages + found;
        case FunctionDefStmt(definition) =>
          symbolTable := symbolTable + [Symbol(definition.functionName, Function)];
          var child := BuildFunctionScope(definition);
          childrenScopes := childrenScopes + [child];
      }
    }
    assert statements[..|statements|] == statements;
    s := Scope(ProgramScopeName, symbolTable, usages, childrenScopes);
  }

  method BuildFunctionScope(f: FunctionDefinition) returns (s: Scope)
    ensures s == FunctionScopeOf(f)
    decreases f
  {
    var symbolTable: seq<Symbol> := [];
    var usages: seq<Symbol> := [];
    var childrenScopes: seq<Scope> := [];

    var parameters := f.functionParameters;
    for i := 0 to |parameters|
      invariant symbolTable == ParameterSymbols(parameters[..i])
    {
      assert ParameterSymbols(parameters[..i + 1]) == ParameterSymbols(parameters[..i]) + [Symbol(parameters[i].parameterName, FunctionParameter)];
      symbolTable := symbolTable + [Symbol(parameters[i].parameterName, FunctionParameter)];
    }
    assert parameters[..|parameters|] == parameters;
    ghost var parameterSymbols := symbolTable;

    var statements := f.functionBody.statements;
    for i := 0 to |statements|
      invariant symbolTable == parameterSymbols + LevelSymbols(statements[..i])
      invariant usages == LevelUsages(statements[..i])
      invariant childrenScopes == LevelChildren(statements[..i])
    {
      LevelSnoc(statements, i);
      ghost var declared := LevelSymbols(statements[..i]);
      assert (parameterSymbols + declared) + [StatementSymbol(statements[i])] ==
        parameterSymbols + (declared + [StatementSymbol(statements[i])]);
      match statements[i] {
        case AssignmentStmt(assignment) =>
          symbolTable := symbolTable + [Symbol(assignment.identifier, Variable)];
          var found := ExtractSymbols(assignment.rhs);
          usages := usages + found;
        case FunctionDefStmt(definition) =>
          symbolTable := symbolTable + [Symbol(definition.functionName, Function)];
          var child := BuildFunctionScope(definition);
          childrenScopes := childrenScopes + [child];
      }
    }
    assert statements[..|statements|] == statements;
    s := Scope(f.functionName, symbolTable, usages, childrenScopes);
  }

  // ---------------------------------------------------------------------------
  // Properties

  lemma {:induction false} LevelUsagesAppend(s1: seq<Statement>, s2: seq<Statement>)
    ensures LevelUsages(s1 + s2) == LevelUsages(s1) + LevelUsages(s2)
  {
    if s1 != [] {
      assert (s1 + s2)[1..] == s1[1..] + s2;
      LevelUsagesAppend(s1[1..], s2);
    } else {
      assert s1 + s2 == s2;
    }
  }

  lemma {:induction false} LevelChildrenAppend(s1: seq<Statement>, s2: seq<Statement>)
    ensures LevelChildren(s1 + s2) == LevelChildren(s1) + LevelChildren(s2)
  {
    if s1 != [] {
      assert (s1 + s2)[1..] == s1[1..] + s2;
      LevelChildrenAppend(s1[1..], s2);
    } else {
      assert s1 + s2 == s2;
    }
  }

  /** The program scope is named "(program)" and declares one symbol per
      top-level statement, in statement order: a Variable for an assignment,
      a Function for a function definition. */
  lemma ProgramScopeSymbols(p: Program)
    ensures ProgramScopeOf(p).scopeName == "(program)"
    ensures |ProgramScopeOf(p).symbolTable| == |p.statements|
    ensures forall i :: 0 <= i < |p.statements| ==>
      var sym := ProgramScopeOf(p).symbolTable[i];
      sym.symbol == DeclaredName(p.statements[i]) &&
      (sym.kind == Variable <==> p.statements[i].AssignmentStmt?) &&
      (sym.kind == Function <==> p.statements[i].FunctionDefStmt?)
  {
  }

  /** A function scope is named after its function; it declares the
      parameters first, in parameter order, then one symbol per body
      statement. */
  lemma FunctionScopeSymbols(f: FunctionDefinition)
    ensures FunctionScopeOf(f).scopeName == f.functionName
    ensures var n := |f.functionParameters|;
      var body := f.functionBody.statements;
      var table := FunctionScopeOf(f).symbolTable;
      |table| == n + |body| &&
      (forall i :: 0 <= i < n ==> table[i] == Symbol(f.functionParameters[i].parameterName, FunctionParameter)) &&
      (forall i :: 0 <= i < |body| ==> table[n + i] == StatementSymbol(body[i]))
  {
  }

  /** The children of a level are exactly the scopes of its function
      definitions, one each, in declaration order. */
  lemma {:induction false} ChildrenAreFunctionScopes(stmts: seq<Statement>)
    ensures |LevelChildren(stmts)| == |FunctionDefinitions(stmts)|
    ensures forall j :: 0 <= j < |LevelChildren(stmts)| ==>
      LevelChildren(stmts)[j] == FunctionScopeOf(FunctionDefinitions(stmts)[j]) &&
      LevelChildren(stmts)[j].scopeName == FunctionDefinitions(stmts)[j].functionName
  {
    if stmts != [] {
      ChildrenAreFunctionScopes(stmts[1..]);
      match stmts[0] {
        case AssignmentStmt(_) =>
          assert LevelChildren(stmts) == LevelChildren(stmts[1..]);
          assert FunctionDefinitions(stmts) == FunctionDefinitions(stmts[1..]);
        case FunctionDefStmt(f) =>
          assert LevelChildren(stmts) == [FunctionScopeOf(f)] + LevelChildren(stmts[1..]);
          assert FunctionDefinitions(stmts) == [f] + FunctionDefinitions(stmts[1..]);
      }
    }
  }

  /** A function definition contributes no usages to the level that defines
      it: its body is only seen by its own child scope. */
  lemma UsagesIgnoreFunctionDefinitions(s1: seq<Statement>, f: FunctionDefinition, s2: seq<Statement>)
    ensures LevelUsages(s1 + [FunctionDefStmt(f)] + s2) == LevelUsages(s1 + s2)
  {
    LevelUsagesAppend(s1 + [FunctionDefStmt(f)], s2);
    LevelUsagesAppend(s1, [FunctionDefStmt(f)]);
    LevelUsagesAppend(s1, s2);
  }

  /** `u` is a usage of the right-hand side of one of `assignments`. */
  ghost predicate UsedByAssignment(assignments: seq<Assignment>, u: Symbol) {
    exists k :: 0 <= k < |assignments| && u in ExpressionUsages(assignments[k].rhs)
  }

  lemma UsedByAssignmentCons(a: Assignment, rest: seq<Assignment>, u: Symbol)
    ensures UsedByAssignment([a] + rest, u) <==> u in ExpressionUsages(a.rhs) || UsedByAssignment(rest, u)
  {
    var all := [a] + rest;
    if UsedByAssignment(rest, u) {
      var k :| 0 <= k < |rest| && u in ExpressionUsages(rest[k].rhs);
      assert all[k + 1] == rest[k];
    }
    if UsedByAssignment(all, u) {
      var k :| 0 <= k < |all| && u in ExpressionUsages(all[k].rhs);
      if k > 0 {
        assert all[k] == rest[k - 1];
        assert UsedByAssignment(rest, u);
      } else {
        assert all[0] == a;
      }
    }
    if u in ExpressionUsages(a.rhs) {
      assert all[0] == a;
    }
  }

  /** Every usage of a level comes from the right-hand side of one of its
      assignments, and every usage of such a right-hand side is there. */
  lemma {:induction false} UsagesComeFromAssignments(stmts: seq<Statement>, u: Symbol)
    ensures u in LevelUsages(stmts) <==> UsedByAssignment(Assignments(stmts), u)
  {
    if stmts != [] {
      UsagesComeFromAssignments(stmts[1..], u);
      match stmts[0]
      case AssignmentStmt(a) =>
        assert Assignments(stmts) == [a] + Assignments(stmts[1..]);
        UsedByAssignmentCons(a, Assignments(stmts[1..]), u);
      case FunctionDefStmt(_) =>
    }
  }

  /** The return expression of a function is never consulted. */
  lemma ReturnExpressionIgnored(f: FunctionDefinition, r: Option<Expression>)
    ensures FunctionScopeOf(f.(functionBody := f.functionBody.(returnExpression := r))) == FunctionScopeOf(f)
  {
  }
}
