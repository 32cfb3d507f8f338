/** The flat symbol table (src/symbol_table.rs): one list of every
    declaration in the program, nested function bodies included, in
    pre-order: a function's own symbol, then its parameters, then the
    declarations of its body.  Duplicate names are kept. */
module SymbolTables {
  import opened Ast

  datatype SymbolKind =
    | VariableDeclaration(startPos: nat)
    | FunctionDefinition(typeVector: seq<TypeLiteral>)  // parameter types, then the return type
    | FunctionParameter(parameterType: TypeLiteral)

  datatype Symbol = Symbol(symbol: string, scopeAddress: string, kind: SymbolKind)

  datatype SymbolTable = SymbolTable(symbolTable: seq<Symbol>)

  // ---------------------------------------------------------------------------
  // Specification

  /** The single symbol an assignment declares. */
  function BuildAssignmentSymbolTable(a: Assignment): seq<Symbol> {
    [Symbol(a.identifier, a.scopeAddress, VariableDeclaration(a.startPos))]
  }

  function ParameterSymbols(params: seq<Parameter>): seq<Symbol> {
    seq(|params|, i requires 0 <= i < |params| =>
      Symbol(params[i].parameterName, params[i].scopeAddress, FunctionParameter(params[i].parameterType)))
  }

  function FunctionSymbol(f: Ast.FunctionDefinition): Symbol {
    Symbol(f.functionName, f.scopeAddress, SymbolKind.FunctionDefinition(Signature(f)))
  }

  function FunctionDefSymbols(f: Ast.FunctionDefinition): seq<Symbol> {
    [FunctionSymbol(f)] + ParameterSymbols(f.functionParameters) + StatementsSymbols(f.functionBody.statements)
  }

  function StatementSymbols(s: Statement): seq<Symbol> {
    match s
    case AssignmentStmt(a) => BuildAssignmentSymbolTable(a)
    case FunctionDefStmt(f) => FunctionDefSymbols(f)
  }

  function StatementsSymbols(stmts: seq<Statement>): seq<Symbol> {
    if stmts == [] then [] else StatementSymbols(stmts[0]) + StatementsSymbols(stmts[1..])
  }

  // ---------------------------------------------------------------------------
  // The builders

  /** Appending statement `i` to the first `i` statements adds its symbols at the end. */
  lemma StatementsSymbolsSnoc(stmts: seq<Statement>, i: nat)
    requires i < |stmts|
    ensures StatementsSymbols(stmts[..i + 1]) == StatementsSymbols(stmts[..i]) + StatementSymbols(stmts[i])
  {
    assert stmts[..i + 1] == stmts[..i] + [stmts[i]];
    StatementsSymbolsAppend(stmts[..i], [stmts[i]]);
    assert [stmts[i]][1..] == [];
  }

  method BuildProgramSymbolTable(program: Program) returns (table: SymbolTable)
    ensures table.symbolTable == StatementsSymbols(program.statements)
  {
    var symbolTable: seq<Symbol> := [];
    var statements := program.statements;
    for i := 0 to |statements|
      invariant symbolTable == StatementsSymbols(statements[..i])
    {
      StatementsSymbolsSnoc(statements, i);
      match statements[i] {
        case AssignmentStmt(assignment) =>
          symbolTable := symbolTable + BuildAssignmentSymbolTable(assignment);
        case FunctionDefStmt(definition) =>
          var inner := BuildFunctionDefSymbolTable(definition);
          symbolTable := symbolTable + inner;
      }
    }
    assert statements[..|statements|] == statements;
    table := SymbolTable(symbolTable);
  }

  method BuildFunctionDefSymbolTable(f: Ast.FunctionDefinition) returns (symbolTable: seq<Symbol>)
    ensures symbolTable == FunctionDefSymbols(f)
    decreases f
  {
    symbolTable := [];
    var typeVector := BuildSignature(f);
    symbolTable := symbolTable + [Symbol(f.functionName, f.scopeAddress, SymbolKind.FunctionDefinition(typeVector))];

    var parameters := f.functionParameters;
    for i := 0 to |parameters|
      invariant symbolTable == [FunctionSymbol(f)] + ParameterSymbols(parameters[..i])
    {
      var parameter := parameters[i];
      var symbol := Symbol(parameter.parameterName, parameter.scopeAddress, FunctionParameter(parameter.parameterType));
      assert ParameterSymbols(parameters[..i + 1]) == ParameterSymbols(parameters[..i]) + [symbol];
      symbolTable := symbolTable + [symbol];
    }
    assert parameters[..|parameters|] == parameters;
    ghost var header := symbolTable;

    var statements := f.functionBody.statements;
    for i := 0 to |statements|
      invariant symbolTable == header + StatementsSymbols(statements[..i])
    {
      StatementsSymbolsSnoc(statements, i);
      ghost var done := StatementsSymbols(statements[..i]);
      var contribution: seq<Symbol>;
      match statements[i] {
        case AssignmentStmt(assignment) =>
          contribution := BuildAssignmentSymbolTable(assignment);
        case FunctionDefStmt(definition) =>
          contribution := BuildFunctionDefSymbolTable(definition);
      }
      assert (header + done) + contribution == header + (done + contribution);
      symbolTable := symbolTable + contribution;
    }
    assert statements[..|statements|] == statements;
  }

  // ---------------------------------------------------------------------------
  // Properties

  lemma {:induction false} StatementsSymbolsAppend(s1: seq<Statement>, s2: seq<Statement>)
    ensures StatementsSymbols(s1 + s2) == StatementsSymbols(s1) + StatementsSymbols(s2)
  {
    if s1 != [] {
      assert (s1 + s2)[1..] == s1[1..] + s2;
      StatementsSymbolsAppend(s1[1..], s2);
    } else {
      assert s1 + s2 == s2;
    }
  }

  /** One symbol per declaration anywhere in the tree: every assignment,
      every function definition and every parameter, duplicates included. */
  lemma {:induction false} SymbolCount(stmts: seq<Statement>)
    ensures |StatementsSymbols(stmts)| == DeclarationCount(stmts)
  {
    if stmts != [] {
      StatementSymbolCount(stmts[0]);
      SymbolCount(stmts[1..]);
    }
  }

  lemma {:induction false} StatementSymbolCount(s: Statement)
    ensures |StatementSymbols(s)| == StatementDeclarationCount(s)
  {
    match s
    case AssignmentStmt(_) =>
    case FunctionDefStmt(f) =>
      SymbolCount(f.functionBody.statements);
  }

  /** A function contributes its own symbol first, carrying its parameter
      types followed by its return type (arity plus one entries), then one
      parameter symbol per parameter, in order, then its body's symbols. */
  lemma FunctionDefSymbolsShape(f: Ast.FunctionDefinition)
    ensures var r, n := FunctionDefSymbols(f), |f.functionParameters|;
      |r| >= 1 + n &&
      r[0].symbol == f.functionName && r[0].scopeAddress == f.scopeAddress &&
      r[0].kind.FunctionDefinition? && |r[0].kind.typeVector| == n + 1 &&
      r[0].kind.typeVector[n] == f.functionReturnType &&
      (forall i :: 0 <= i < n ==> r[0].kind.typeVector[i] == f.functionParameters[i].parameterType) &&
      (forall i :: 0 <= i < n ==>
        r[1 + i] == Symbol(f.functionParameters[i].parameterName, f.functionParameters[i].scopeAddress,
                           FunctionParameter(f.functionParameters[i].parameterType))) &&
      r[1 + n..] == StatementsSymbols(f.functionBody.statements)
  {
  }

  /** Each assignment contributes exactly its own declaration, with the
      position and scope address of the tree. */
  lemma AssignmentContribution(a: Assignment, rest: seq<Statement>)
    ensures StatementsSymbols([AssignmentStmt(a)] + rest) ==
      [Symbol(a.identifier, a.scopeAddress, VariableDeclaration(a.startPos))] + StatementsSymbols(rest)
  {
    assert ([AssignmentStmt(a)] + rest)[1..] == rest;
  }

  /** The return expression of a function contributes no symbols. */
  lemma ReturnExpressionIgnored(f: Ast.FunctionDefinition, r: Option<Expression>)
    ensures FunctionDefSymbols(f.(functionBody := f.functionBody.(returnExpression := r))) == FunctionDefSymbols(f)
  {
  }
}
