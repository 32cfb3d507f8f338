/** Resolution of a usage against a chain of enclosing levels.  The unused
    function `resolve_names` (src/main.rs:78-79) calls a scope-chain
    resolver that no live file defines, and its call in `main` is commented
    out (src/main.rs:30-32).  This module is a composition written for the
    model, not a transcription: it searches the level tables of
    src/scope2.rs from the innermost level outward, asking the single-level
    test of src/scope2.rs at each level.  That test compares positions at
    every level, outer ones included, so a variable declared at an outer
    level after the usage is not visible (`LaterTopLevelInvisible`). */
module Resolution {
  import opened Ast
  import opened LevelScopes
  import Scopes

  /** The levels enclosing a usage, outermost (the program) first and the
      level the usage occurs in last. */
  function ChainTables(chain: seq<LevelScope>): (r: seq<seq<Symbol>>)
    ensures |r| == |chain|
  {
    seq(|chain|, k requires 0 <= k < |chain| => LevelSymbolTable(chain[k]))
  }

  predicate ChainPositionsPresent(usage: Usage, stack: seq<seq<Symbol>>) {
    forall k :: 0 <= k < |stack| ==> PositionsPresent(usage, stack[k])
  }

  /** The level a usage resolves at: the innermost level that defines it. */
  function ResolvingLevel(usage: Usage, stack: seq<seq<Symbol>>): (r: Option<nat>)
    requires ChainPositionsPresent(usage, stack)
    ensures r.Some? ==>
      r.value < |stack| && UsageIsDefined(usage, stack[r.value]) &&
      forall j :: r.value < j < |stack| ==> !UsageIsDefined(usage, stack[j])
    ensures r.None? <==> forall k :: 0 <= k < |stack| ==> !UsageIsDefined(usage, stack[k])
    decreases |stack|
  {
    if stack == [] then None
    else if UsageIsDefined(usage, stack[|stack| - 1]) then Some(|stack| - 1)
    else ResolvingLevel(usage, stack[..|stack| - 1])
  }

  /** Every level table the builder produces gives every variable a
      position, so the lookup of a positioned usage never unwraps nothing. */
  lemma LevelTablesHavePositions(scope: LevelScope, usage: Usage)
    requires usage.kind == VariableUse ==> usage.startPos.Some?
    ensures PositionsPresent(usage, LevelSymbolTable(scope))
  {
    var params, stmts := LevelParameters(scope), LevelStatements(scope);
    var table := LevelSymbolTable(scope);
    forall s | s in table && s.kind == Variable
      ensures s.startPos.Some?
    {
      var i :| 0 <= i < |table| && table[i] == s;
      if i >= |params| {
        assert s == StatementSymbol(stmts[i - |params|]);
      }
    }
  }

  lemma ChainHasPositions(chain: seq<LevelScope>, usage: Usage)
    requires usage.kind == VariableUse ==> usage.startPos.Some?
    ensures ChainPositionsPresent(usage, ChainTables(chain))
  {
    forall k | 0 <= k < |chain| ensures PositionsPresent(usage, ChainTables(chain)[k]) {
      LevelTablesHavePositions(chain[k], usage);
    }
  }

  /** A parameter of the innermost level shadows every outer declaration of
      the same name. */
  lemma ParameterShadowsOuter(usage: Usage, stack: seq<seq<Symbol>>, s: Symbol)
    requires ChainPositionsPresent(usage, stack)
    requires stack != [] && usage.kind == VariableUse
    requires s in stack[|stack| - 1] && s.kind == FunctionParameter && s.symbol == usage.symbol
    ensures ResolvingLevel(usage, stack) == Some(|stack| - 1)
  {
  }

  /** With the program alone as the chain, a usage resolves there iff the
      program defines it. */
  lemma ResolveInOneLevel(usage: Usage, outer: seq<Symbol>)
    requires PositionsPresent(usage, outer)
    ensures ChainPositionsPresent(usage, [outer])
    ensures ResolvingLevel(usage, [outer]) == if UsageIsDefined(usage, outer) then Some(0) else None
  {
    assert [outer][..0] == [];
  }

  /** With the program and one function as the chain, a usage resolves in
      the function if the function defines it, else in the program if the
      program does, else nowhere. */
  lemma ResolveInTwoLevels(usage: Usage, outer: seq<Symbol>, inner: seq<Symbol>)
    requires PositionsPresent(usage, outer) && PositionsPresent(usage, inner)
    ensures ChainPositionsPresent(usage, [outer, inner])
    ensures ResolvingLevel(usage, [outer, inner]) ==
      if UsageIsDefined(usage, inner) then Some(1)
      else if UsageIsDefined(usage, outer) then Some(0)
      else None
  {
    assert [outer, inner][..1] == [outer];
    ResolveInOneLevel(usage, outer);
  }

  // ---------------------------------------------------------------------------
  // Worked scenarios

  function Let(name: string, rhs: Expression, pos: nat): Statement {
    AssignmentStmt(Assignment(name, None, rhs, pos, ""))
  }

  function Fun(name: string, params: seq<Parameter>, body: seq<Statement>, result: Option<Expression>): Statement {
    FunctionDefStmt(FunctionDefinition(name, params, Unit, FunctionBody(body, result), ""))
  }

  /** The program `let x = 5; let y = x + 1;`; positions are character
      offsets, a declaration's being that of its `let`. */
  function DeclaredBeforeUseProgram(): Program {
    Program([Let("x", NumberLiteral(5), 0), Let("y", Binary(Plus, Identifier("x", 19), NumberLiteral(1)), 11)])
  }

  lemma DeclaredBeforeUseTable()
    ensures LevelSymbolTable(ProgramScope(DeclaredBeforeUseProgram())) ==
      [Symbol("x", Variable, [], Some(0)), Symbol("y", Variable, [], Some(11))]
  {
    assert StatementSymbols(DeclaredBeforeUseProgram().statements) ==
      [Symbol("x", Variable, [], Some(0)), Symbol("y", Variable, [], Some(11))];
  }

  /** The use of x at position 19 follows its declaration at 0: it resolves
      at the program level, and nothing is redeclared. */
  lemma DeclaredBeforeUse()
    ensures var stack := ChainTables([ProgramScope(DeclaredBeforeUseProgram())]);
      var usage := Usage("x", VariableUse, Some(19));
      ChainPositionsPresent(usage, stack) && ResolvingLevel(usage, stack) == Some(0) &&
      Redeclarations(ProgramScope(DeclaredBeforeUseProgram())) == []
  {
    var usage := Usage("x", VariableUse, Some(19));
    var outer := [Symbol("x", Variable, [], Some(0)), Symbol("y", Variable, [], Some(11))];
    DeclaredBeforeUseTable();
    assert ChainTables([ProgramScope(DeclaredBeforeUseProgram())]) == [outer];
    assert UsageIsDefined(usage, outer) by {
      assert VariablesAndParameters(outer) == outer by {
        assert outer[1..][1..] == [];
      }
    }
    ResolveInOneLevel(usage, outer);
    assert Redeclared(outer, {}, "(program)") == [] by {
      assert outer[1..][1..] == [];
    }
  }

  /** The program `let y = x + 1; let x = 5;`. */
  function UsedBeforeDeclarationProgram(): Program {
    Program([Let("y", Binary(Plus, Identifier("x", 8), NumberLiteral(1)), 0), Let("x", NumberLiteral(5), 15)])
  }

  lemma UsedBeforeDeclarationTable()
    ensures LevelSymbolTable(ProgramScope(UsedBeforeDeclarationProgram())) ==
      [Symbol("y", Variable, [], Some(0)), Symbol("x", Variable, [], Some(15))]
  {
    assert StatementSymbols(UsedBeforeDeclarationProgram().statements) ==
      [Symbol("y", Variable, [], Some(0)), Symbol("x", Variable, [], Some(15))];
  }

  /** The use of x at position 8 precedes its only declaration, at 15: it
      resolves nowhere. */
  lemma UsedBeforeDeclaration()
    ensures var stack := ChainTables([ProgramScope(UsedBeforeDeclarationProgram())]);
      var usage := Usage("x", VariableUse, Some(8));
      ChainPositionsPresent(usage, stack) && ResolvingLevel(usage, stack) == None
  {
    var usage := Usage("x", VariableUse, Some(8));
    var outer := [Symbol("y", Variable, [], Some(0)), Symbol("x", Variable, [], Some(15))];
    UsedBeforeDeclarationTable();
    assert ChainTables([ProgramScope(UsedBeforeDeclarationProgram())]) == [outer];
    assert !UsageIsDefined(usage, outer) by {
      assert outer[1..][1..] == [];
      assert VariablesAndParameters(outer) == outer;
    }
    ResolveInOneLevel(usage, outer);
  }

  /** The program `let x = 1; let x = 2;`. */
  function RepeatedLetProgram(): Program {
    Program([Let("x", NumberLiteral(1), 0), Let("x", NumberLiteral(2), 11)])
  }

  /** The second x is reported once, as a variable, in "(program)". */
  lemma SecondDeclarationReported()
    ensures Redeclarations(ProgramScope(RepeatedLetProgram())) == [Redeclaration(Variable, "x", "(program)")]
  {
    var table := [Symbol("x", Variable, [], Some(0)), Symbol("x", Variable, [], Some(11))];
    assert LevelSymbolTable(ProgramScope(RepeatedLetProgram())) == table by {
      assert StatementSymbols(RepeatedLetProgram().statements) == table;
    }
    assert table[1..][1..] == [];
  }

  /** `fun a(): Unit { let r = b(); }`. */
  function CallerOfLater(): Ast.FunctionDefinition {
    FunctionDefinition("a", [], Unit, FunctionBody([Let("r", FunctionCall("b", []), 16)], None), "")
  }

  /** The program defining `a` and then `fun b(): Unit { return; }`. */
  function ForwardCallProgram(): Program {
    Program([FunctionDefStmt(CallerOfLater()), Fun("b", [], [], None)])
  }

  lemma ForwardCallTables()
    ensures LevelSymbolTable(ProgramScope(ForwardCallProgram())) ==
      [Symbol("a", Function, [Unit], None), Symbol("b", Function, [Unit], None)]
    ensures LevelSymbolTable(FunctionScope(CallerOfLater())) == [Symbol("r", Variable, [], Some(16))]
  {
    var a := CallerOfLater();
    assert Signature(a) == [Unit];
    assert StatementSymbols(ForwardCallProgram().statements) ==
      [Symbol("a", Function, [Unit], None), Symbol("b", Function, [Unit], None)];
    assert StatementSymbols(a.functionBody.statements) == [Symbol("r", Variable, [], Some(16))];
  }

  /** The scope builder records the call to b in a's body as a function
      usage of a's level. */
  lemma ForwardCallIsUsage()
    ensures Scopes.FunctionScopeOf(CallerOfLater()).usages == [Scopes.Symbol("b", Scopes.Function)]
  {
    var body := CallerOfLater().functionBody.statements;
    assert Scopes.ArgumentsUsages([]) == [];
    assert Scopes.LevelUsages(body[1..]) == [];
  }

  /** That call resolves at the program level, although b is defined
      after a. */
  lemma ForwardCallResolves()
    ensures var stack := ChainTables([ProgramScope(ForwardCallProgram()), FunctionScope(CallerOfLater())]);
      var usage := Usage("b", FunctionCallUse, None);
      ChainPositionsPresent(usage, stack) && ResolvingLevel(usage, stack) == Some(0)
  {
    var usage := Usage("b", FunctionCallUse, None);
    var outer := [Symbol("a", Function, [Unit], None), Symbol("b", Function, [Unit], None)];
    var inner := [Symbol("r", Variable, [], Some(16))];
    ForwardCallTables();
    assert ChainTables([ProgramScope(ForwardCallProgram()), FunctionScope(CallerOfLater())]) == [outer, inner];
    assert UsageIsDefined(usage, outer) by {
      assert outer[1..][0] == outer[1];
    }
    assert !UsageIsDefined(usage, inner) by {
      assert inner[1..] == [];
    }
    ResolveInTwoLevels(usage, outer, inner);
  }

  /** `fun f(x: Number): Number { let y = x; }`. */
  function ShadowingFunction(): Ast.FunctionDefinition {
    FunctionDefinition("f", [Parameter("x", Number, "")], Number,
                       FunctionBody([Let("y", Identifier("x", 46), 38)], None), "")
  }

  /** The program `let x = 1; fun f(x: Number): Number { let y = x; }`. */
  function ShadowingProgram(): Program {
    Program([Let("x", NumberLiteral(1), 0), FunctionDefStmt(ShadowingFunction())])
  }

  lemma ShadowingTables()
    ensures LevelSymbolTable(ProgramScope(ShadowingProgram())) ==
      [Symbol("x", Variable, [], Some(0)), Symbol("f", Function, [Number, Number], None)]
    ensures LevelSymbolTable(FunctionScope(ShadowingFunction())) ==
      [Symbol("x", FunctionParameter, [Number], None), Symbol("y", Variable, [], Some(38))]
  {
    var f := ShadowingFunction();
    assert Signature(f) == [Number, Number];
    assert StatementSymbols(ShadowingProgram().statements) ==
      [Symbol("x", Variable, [], Some(0)), Symbol("f", Function, [Number, Number], None)];
    assert ParameterSymbols(f.functionParameters) == [Symbol("x", FunctionParameter, [Number], None)];
    assert StatementSymbols(f.functionBody.statements) == [Symbol("y", Variable, [], Some(38))];
  }

  /** The use of x inside f resolves to f's parameter, not to the top-level x. */
  lemma ParameterShadowsTopLevel()
    ensures var stack := ChainTables([ProgramScope(ShadowingProgram()), FunctionScope(ShadowingFunction())]);
      var usage := Usage("x", VariableUse, Some(46));
      ChainPositionsPresent(usage, stack) && ResolvingLevel(usage, stack) == Some(1)
  {
    var usage := Usage("x", VariableUse, Some(46));
    var outer := [Symbol("x", Variable, [], Some(0)), Symbol("f", Function, [Number, Number], None)];
    var inner := [Symbol("x", FunctionParameter, [Number], None), Symbol("y", Variable, [], Some(38))];
    ShadowingTables();
    assert ChainTables([ProgramScope(ShadowingProgram()), FunctionScope(ShadowingFunction())]) == [outer, inner];
    LevelTablesHavePositions(ProgramScope(ShadowingProgram()), usage);
    LevelTablesHavePositions(FunctionScope(ShadowingFunction()), usage);
    assert UsageIsDefined(usage, inner) by {
      assert VariablesAndParameters(inner)[0] == inner[0];
    }
    ResolveInTwoLevels(usage, outer, inner);
  }

  /** A parameter and a top-level variable sharing a name are at different
      levels, so neither level reports a redeclaration. */
  lemma ShadowingIsNotRedeclaration()
    ensures Redeclarations(ProgramScope(ShadowingProgram())) == []
    ensures Redeclarations(FunctionScope(ShadowingFunction())) == []
  {
    var outer := [Symbol("x", Variable, [], Some(0)), Symbol("f", Function, [Number, Number], None)];
    var inner := [Symbol("x", FunctionParameter, [Number], None), Symbol("y", Variable, [], Some(38))];
    ShadowingTables();
    assert outer[1..][1..] == [];
    assert inner[1..][1..] == [];
  }

  /** `fun g(): Unit { let y = z; }`, defined before the top-level z. */
  function EarlierFunction(): Ast.FunctionDefinition {
    FunctionDefinition("g", [], Unit, FunctionBody([Let("y", Identifier("z", 24), 16)], None), "")
  }

  /** The program `fun g(): Unit { let y = z; } let z = 1;`. */
  function LaterTopLevelProgram(): Program {
    Program([FunctionDefStmt(EarlierFunction()), Let("z", NumberLiteral(1), 29)])
  }

  lemma LaterTopLevelTables()
    ensures LevelSymbolTable(ProgramScope(LaterTopLevelProgram())) ==
      [Symbol("g", Function, [Unit], None), Symbol("z", Variable, [], Some(29))]
    ensures LevelSymbolTable(FunctionScope(EarlierFunction())) == [Symbol("y", Variable, [], Some(16))]
  {
    var g := EarlierFunction();
    assert Signature(g) == [Unit];
    assert StatementSymbols(LaterTopLevelProgram().statements) ==
      [Symbol("g", Function, [Unit], None), Symbol("z", Variable, [], Some(29))];
    assert StatementSymbols(g.functionBody.statements) == [Symbol("y", Variable, [], Some(16))];
  }

  /** The use of z at 24 inside g precedes the top-level z at 29 in the
      text, and the outer level is checked by position too: it resolves
      nowhere. */
  lemma LaterTopLevelInvisible()
    ensures var stack := ChainTables([ProgramScope(LaterTopLevelProgram()), FunctionScope(EarlierFunction())]);
      var usage := Usage("z", VariableUse, Some(24));
      ChainPositionsPresent(usage, stack) && ResolvingLevel(usage, stack) == None
  {
    var usage := Usage("z", VariableUse, Some(24));
    var outer := [Symbol("g", Function, [Unit], None), Symbol("z", Variable, [], Some(29))];
    var inner := [Symbol("y", Variable, [], Some(16))];
    LaterTopLevelTables();
    assert ChainTables([ProgramScope(LaterTopLevelProgram()), FunctionScope(EarlierFunction())]) == [outer, inner];
    assert !UsageIsDefined(usage, inner);
    assert !UsageIsDefined(usage, outer);
    ResolveInTwoLevels(usage, outer, inner);
  }
}
