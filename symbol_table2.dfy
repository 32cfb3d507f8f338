/** The nested, name-keyed symbol table (src/symbol_table2.rs): each level
    maps a name to what was declared under it, and a function's entry holds
    the table of its own level.  Inserting a name that is already present
    replaces its entry, so the last declaration of a name wins. */
module SymbolTables2 {
  import opened Ast

  datatype SymbolKind2 =
    | VariableDeclaration(typeAnnotation: Option<TypeLiteral>, startPos: nat)
    | FunctionDefinition(typeVector: seq<TypeLiteral>)  // parameter types, then the return type
    | FunctionParameter(parameterType: TypeLiteral)

  datatype SymbolInfo = SymbolInfo(symbol: string, scopeAddress: string, kind: SymbolKind2, inner: Option<SymbolTable2>)

  datatype SymbolTable2 = SymbolTable2(symbolTable: map<string, SymbolInfo>)

  // ---------------------------------------------------------------------------
  // Specification

  /** The one-entry table of an assignment. */
  function BuildAssignmentSymbolTable2(a: Assignment): map<string, SymbolInfo> {
    map[a.identifier := SymbolInfo(a.identifier, a.scopeAddress, VariableDeclaration(a.typeAnnotation, a.startPos), None)]
  }

  function ParameterInfo(p: Parameter): SymbolInfo {
    SymbolInfo(p.parameterName, p.scopeAddress, FunctionParameter(p.parameterType), None)
  }

  function FunctionInfo(f: Ast.FunctionDefinition): SymbolInfo
    decreases f, 1
  {
    SymbolInfo(f.functionName, f.scopeAddress, SymbolKind2.FunctionDefinition(Signature(f)),
               Some(SymbolTable2(FunctionDefTable(f))))
  }

  /** The one-entry table of a statement. */
  function StatementTable(s: Statement): map<string, SymbolInfo>
    decreases s, 0
  {
    match s
    case AssignmentStmt(a) => BuildAssignmentSymbolTable2(a)
    case FunctionDefStmt(f) => map[f.functionName := FunctionInfo(f)]
  }

  /** `table` with the entries of `stmts` inserted one statement after the other. */
  function InsertStatements(table: map<string, SymbolInfo>, stmts: seq<Statement>): map<string, SymbolInfo>
    decreases stmts, 0
  {
    if stmts == [] then table else InsertStatements(table + StatementTable(stmts[0]), stmts[1..])
  }

  function InsertParameters(table: map<string, SymbolInfo>, params: seq<Parameter>): map<string, SymbolInfo>
    decreases params
  {
    if params == [] then table
    else InsertParameters(table[params[0].parameterName := ParameterInfo(params[0])], params[1..])
  }

  /** The inner table of a function: its parameters, then its body's declarations. */
  function FunctionDefTable(f: Ast.FunctionDefinition): map<string, SymbolInfo>
    decreases f, 0
  {
    InsertStatements(InsertParameters(map[], f.functionParameters), f.functionBody.statements)
  }

  function ProgramTable(p: Program): map<string, SymbolInfo> {
    InsertStatements(map[], p.statements)
  }

  /** The entry a statement declares. */
  function StatementInfo(s: Statement): SymbolInfo {
    match s
    case AssignmentStmt(a) => BuildAssignmentSymbolTable2(a)[a.identifier]
    case FunctionDefStmt(f) => FunctionInfo(f)
  }

  // ---------------------------------------------------------------------------
  // The builders

  /** Inserts every entry of `entries` into `table`, in no particular order,
      replacing what was there under the same name. */
  method InsertAll(table: map<string, SymbolInfo>, entries: map<string, SymbolInfo>) returns (r: map<string, SymbolInfo>)
    ensures r == table + entries
  {
    r := table;
    var remaining := entries.Keys;
    while remaining != {}
      invariant remaining <= entries.Keys
      invariant r.Keys == table.Keys + (entries.Keys - remaining)
      invariant forall k :: k in entries && k !in remaining ==> r[k] == entries[k]
      invariant forall k :: k in table && (k !in entries || k in remaining) ==> r[k] == table[k]
      decreases remaining
    {
      var name :| name in remaining;
      r := r[name := entries[name]];
      remaining := remaining - {name};
    }
  }

  method BuildProgramSymbolTable2(program: Program) returns (table: SymbolTable2)
    ensures table.symbolTable == ProgramTable(program)
  {
    var symbolTable: map<string, SymbolInfo> := map[];
    var statements := program.statements;
    for i := 0 to |statements|
      invariant InsertStatements(symbolTable, statements[i..]) == ProgramTable(program)
    {
      assert statements[i..][1..] == statements[i + 1..];
      var entries := BuildStatementSymbolTable2(statements[i]);
      symbolTable := InsertAll(symbolTable, entries);
    }
    table := SymbolTable2(symbolTable);
  }

  method BuildStatementSymbolTable2(statement: Statement) returns (symbolTable: map<string, SymbolInfo>)
    ensures symbolTable == StatementTable(statement)
    decreases statement, 0
  {
    symbolTable := map[];
    match statement
    case AssignmentStmt(assignment) =>
      symbolTable := InsertAll(symbolTable, BuildAssignmentSymbolTable2(assignment));
    case FunctionDefStmt(definition) =>
      var typeVector := BuildSignature(definition);
      var inner := BuildFunctionDefSymbolTable2(definition);
      symbolTable := symbolTable[definition.functionName :=
        SymbolInfo(definition.functionName, definition.scopeAddress,
                   SymbolKind2.FunctionDefinition(typeVector), Some(SymbolTable2(inner)))];
  }

  method BuildFunctionDefSymbolTable2(f: Ast.FunctionDefinition) returns (symbolTable: map<string, SymbolInfo>)
    ensures symbolTable == FunctionDefTable(f)
    decreases f, 0
  {
    symbolTable := map[];
    var parameters := f.functionParameters;
    for i := 0 to |parameters|
      invariant InsertParameters(symbolTable, parameters[i..]) == InsertParameters(map[], parameters)
    {
      assert parameters[i..][1..] == parameters[i + 1..];
      var parameter := parameters[i];
      symbolTable := symbolTable[parameter.parameterName :=
        SymbolInfo(parameter.parameterName, parameter.scopeAddress, FunctionParameter(parameter.parameterType), None)];
    }
    var statements := f.functionBody.statements;
    for i := 0 to |statements|
      invariant InsertStatements(symbolTable, statements[i..]) == FunctionDefTable(f)
    {
      assert statements[i..][1..] == statements[i + 1..];
      var entries := BuildStatementSymbolTable2(statements[i]);
      symbolTable := InsertAll(symbolTable, entries);
    }
  }

  // ---------------------------------------------------------------------------
  // Properties

  /** Every key is the name stored in its entry, and exactly the function
      entries carry an inner table. */
  ghost predicate Coherent(table: map<string, SymbolInfo>) {
    forall k :: k in table ==>
      table[k].symbol == k && (table[k].inner.Some? <==> table[k].kind.FunctionDefinition?)
  }

  lemma StatementTableEntry(s: Statement)
    ensures StatementTable(s) == map[DeclaredName(s) := StatementInfo(s)]
    ensures StatementInfo(s).symbol == DeclaredName(s)
    ensures StatementInfo(s).inner.Some? <==> StatementInfo(s).kind.FunctionDefinition?
  {
  }

  lemma {:induction false} InsertStatementsCoherent(table: map<string, SymbolInfo>, stmts: seq<Statement>)
    requires Coherent(table)
    ensures Coherent(InsertStatements(table, stmts))
    decreases stmts
  {
    if stmts != [] {
      StatementTableEntry(stmts[0]);
      InsertStatementsCoherent(table + StatementTable(stmts[0]), stmts[1..]);
    }
  }

  lemma {:induction false} InsertParametersCoherent(table: map<string, SymbolInfo>, params: seq<Parameter>)
    requires Coherent(table)
    ensures Coherent(InsertParameters(table, params))
    decreases params
  {
    if params != [] {
      InsertParametersCoherent(table[params[0].parameterName := ParameterInfo(params[0])], params[1..]);
    }
  }

  /** Every key of the program table, and of every function's inner table,
      is the name of the entry stored under it; function entries, and only
      they, hold an inner table. */
  lemma TablesCoherent(p: Program, f: Ast.FunctionDefinition)
    ensures Coherent(ProgramTable(p))
    ensures Coherent(FunctionDefTable(f))
  {
    InsertStatementsCoherent(map[], p.statements);
    InsertParametersCoherent(map[], f.functionParameters);
    InsertStatementsCoherent(InsertParameters(map[], f.functionParameters), f.functionBody.statements);
  }

  lemma DeclaredNamesCons(stmts: seq<Statement>)
    requires stmts != []
    ensures DeclaredNames(stmts) == {DeclaredName(stmts[0])} + DeclaredNames(stmts[1..])
  {
    forall x | x in DeclaredNames(stmts) ensures x in {DeclaredName(stmts[0])} + DeclaredNames(stmts[1..]) {
      var i :| 0 <= i < |stmts| && DeclaredName(stmts[i]) == x;
      if i > 0 { assert stmts[1..][i - 1] == stmts[i]; }
    }
    forall x | x in DeclaredNames(stmts[1..]) ensures x in DeclaredNames(stmts) {
      var i :| 0 <= i < |stmts[1..]| && DeclaredName(stmts[1..][i]) == x;
      assert stmts[i + 1] == stmts[1..][i];
    }
  }

  lemma ParameterNamesCons(params: seq<Parameter>)
    requires params != []
    ensures ParameterNames(params) == {params[0].parameterName} + ParameterNames(params[1..])
  {
    forall x | x in ParameterNames(params) ensures x in {params[0].parameterName} + ParameterNames(params[1..]) {
      var i :| 0 <= i < |params| && params[i].parameterName == x;
      if i > 0 { assert params[1..][i - 1] == params[i]; }
    }
    forall x | x in ParameterNames(params[1..]) ensures x in ParameterNames(params) {
      var i :| 0 <= i < |params[1..]| && params[1..][i].parameterName == x;
      assert params[i + 1] == params[1..][i];
    }
  }

  lemma {:induction false} InsertStatementsKeys(table: map<string, SymbolInfo>, stmts: seq<Statement>)
    ensures InsertStatements(table, stmts).Keys == table.Keys + DeclaredNames(stmts)
    decreases stmts
  {
    if stmts != [] {
      StatementTableEntry(stmts[0]);
      DeclaredNamesCons(stmts);
      InsertStatementsKeys(table + StatementTable(stmts[0]), stmts[1..]);
    }
  }

  lemma {:induction false} InsertParametersKeys(table: map<string, SymbolInfo>, params: seq<Parameter>)
    ensures InsertParameters(table, params).Keys == table.Keys + ParameterNames(params)
    decreases params
  {
    if params != [] {
      ParameterNamesCons(params);
      InsertParametersKeys(table[params[0].parameterName := ParameterInfo(params[0])], params[1..]);
    }
  }

  /** The program table has exactly the names its top-level statements
      declare; a function's inner table exactly its parameters' names and
      the names its body declares directly. */
  lemma TableKeys(p: Program, f: Ast.FunctionDefinition)
    ensures ProgramTable(p).Keys == DeclaredNames(p.statements)
    ensures FunctionDefTable(f).Keys == ParameterNames(f.functionParameters) + DeclaredNames(f.functionBody.statements)
  {
    InsertStatementsKeys(map[], p.statements);
    InsertParametersKeys(map[], f.functionParameters);
    InsertStatementsKeys(InsertParameters(map[], f.functionParameters), f.functionBody.statements);
  }

  /** Statements that do not declare `x` leave its entry as it was. */
  lemma {:induction false} InsertStatementsKeepsOthers(table: map<string, SymbolInfo>, stmts: seq<Statement>, x: string)
    requires forall j :: 0 <= j < |stmts| ==> DeclaredName(stmts[j]) != x
    ensures x in InsertStatements(table, stmts) <==> x in table
    ensures x in table ==> InsertStatements(table, stmts)[x] == table[x]
    decreases stmts
  {
    if stmts != [] {
      StatementTableEntry(stmts[0]);
      InsertStatementsKeepsOthers(table + StatementTable(stmts[0]), stmts[1..], x);
    }
  }

  /** Of several statements declaring one name, the last one's entry is the
      one the table keeps. */
  lemma {:induction false} InsertStatementsLastWins(table: map<string, SymbolInfo>, stmts: seq<Statement>, i: nat)
    requires i < |stmts|
    requires forall j :: i < j < |stmts| ==> DeclaredName(stmts[j]) != DeclaredName(stmts[i])
    ensures DeclaredName(stmts[i]) in InsertStatements(table, stmts)
    ensures InsertStatements(table, stmts)[DeclaredName(stmts[i])] == StatementInfo(stmts[i])
    decreases stmts
  {
    StatementTableEntry(stmts[0]);
    if i == 0 {
      InsertStatementsKeepsOthers(table + StatementTable(stmts[0]), stmts[1..], DeclaredName(stmts[0]));
    } else {
      InsertStatementsLastWins(table + StatementTable(stmts[0]), stmts[1..], i - 1);
    }
  }

  lemma {:induction false} InsertParametersKeepsOthers(table: map<string, SymbolInfo>, params: seq<Parameter>, x: string)
    requires forall j :: 0 <= j < |params| ==> params[j].parameterName != x
    ensures x in InsertParameters(table, params) <==> x in table
    ensures x in table ==> InsertParameters(table, params)[x] == table[x]
    decreases params
  {
    if params != [] {
      InsertParametersKeepsOthers(table[params[0].parameterName := ParameterInfo(params[0])], params[1..], x);
    }
  }

  lemma {:induction false} InsertParametersLastWins(table: map<string, SymbolInfo>, params: seq<Parameter>, i: nat)
    requires i < |params|
    requires forall j :: i < j < |params| ==> params[j].parameterName != params[i].parameterName
    ensures params[i].parameterName in InsertParameters(table, params)
    ensures InsertParameters(table, params)[params[i].parameterName] == ParameterInfo(params[i])
    decreases params
  {
    var next := table[params[0].parameterName := ParameterInfo(params[0])];
    if i == 0 {
      InsertParametersKeepsOthers(next, params[1..], params[0].parameterName);
    } else {
      InsertParametersLastWins(next, params[1..], i - 1);
    }
  }

  /** At the program level the last top-level declaration of a name wins. */
  lemma ProgramLastWins(p: Program, i: nat)
    requires i < |p.statements|
    requires forall j :: i < j < |p.statements| ==> DeclaredName(p.statements[j]) != DeclaredName(p.statements[i])
    ensures DeclaredName(p.statements[i]) in ProgramTable(p)
    ensures ProgramTable(p)[DeclaredName(p.statements[i])] == StatementInfo(p.statements[i])
  {
    InsertStatementsLastWins(map[], p.statements, i);
  }

  /** In a function's inner table a body declaration replaces a parameter of
      the same name, because the body is inserted after the parameters. */
  lemma BodyOverridesParameter(f: Ast.FunctionDefinition, i: nat)
    requires i < |f.functionBody.statements|
    requires forall j :: i < j < |f.functionBody.statements| ==>
      DeclaredName(f.functionBody.statements[j]) != DeclaredName(f.functionBody.statements[i])
    ensures DeclaredName(f.functionBody.statements[i]) in FunctionDefTable(f)
    ensures FunctionDefTable(f)[DeclaredName(f.functionBody.statements[i])] == StatementInfo(f.functionBody.statements[i])
    ensures !FunctionDefTable(f)[DeclaredName(f.functionBody.statements[i])].kind.FunctionParameter?
  {
    InsertStatementsLastWins(InsertParameters(map[], f.functionParameters), f.functionBody.statements, i);
  }

  /** A parameter keeps its entry only when no body statement declares its
      name; of several parameters with one name, the last wins. */
  lemma ParameterSurvives(f: Ast.FunctionDefinition, k: nat)
    requires k < |f.functionParameters|
    requires forall j :: k < j < |f.functionParameters| ==>
      f.functionParameters[j].parameterName != f.functionParameters[k].parameterName
    requires forall j :: 0 <= j < |f.functionBody.statements| ==>
      DeclaredName(f.functionBody.statements[j]) != f.functionParameters[k].parameterName
    ensures f.functionParameters[k].parameterName in FunctionDefTable(f)
    ensures FunctionDefTable(f)[f.functionParameters[k].parameterName] == ParameterInfo(f.functionParameters[k])
  {
    var x := f.functionParameters[k].parameterName;
    InsertParametersLastWins(map[], f.functionParameters, k);
    InsertStatementsKeepsOthers(InsertParameters(map[], f.functionParameters), f.functionBody.statements, x);
  }

  /** A variable entry carries the annotation and position of its
      assignment; a function entry carries the parameter types followed by
      the return type, and its inner table. */
  lemma StatementInfoContents(s: Statement)
    ensures s.AssignmentStmt? ==>
      StatementInfo(s) == SymbolInfo(s.assignment.identifier, s.assignment.scopeAddress,
        VariableDeclaration(s.assignment.typeAnnotation, s.assignment.startPos), None)
    ensures s.FunctionDefStmt? ==>
      var f := s.definition;
      StatementInfo(s).kind == SymbolKind2.FunctionDefinition(Signature(f)) &&
      |StatementInfo(s).kind.typeVector| == |f.functionParameters| + 1 &&
      StatementInfo(s).inner == Some(SymbolTable2(FunctionDefTable(f)))
  {
  }
}
