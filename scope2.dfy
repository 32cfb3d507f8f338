/** Per-level name checks (src/scope2.rs): the declarations of one level
    (the program, or one function) with their type information and
    positions, the redeclaration check over that level, and the test of
    whether one level defines a usage. */
module LevelScopes {
  import opened Ast

  /** A level to check: the whole program, or one function definition. */
  datatype LevelScope = ProgramScope(program: Program) | FunctionScope(definition: FunctionDefinition)

  datatype SymbolKind = Variable | Function | FunctionParameter

  /** `typeInfo` is empty for an unannotated variable, a singleton for an
      annotated variable or a parameter, and the parameter types followed by
      the return type for a function. */
  datatype Symbol = Symbol(symbol: string, kind: SymbolKind, typeInfo: seq<TypeLiteral>, startPos: Option<nat>)

  datatype UsageKind = VariableUse | FunctionCallUse

  datatype Usage = Usage(symbol: string, kind: UsageKind, startPos: Option<nat>)

  /** A redeclaration report: the kind and name of the later declaration and
      the name of the level it was found in. */
  datatype Redeclaration = Redeclaration(kind: SymbolKind, symbol: string, scopeName: string)

  // ---------------------------------------------------------------------------
  // The declarations of one level

  function ScopeName(scope: LevelScope): string {
    match scope
    case ProgramScope(_) => "(program)"
    case FunctionScope(f) => f.functionName
  }

  function LevelParameters(scope: LevelScope): seq<Parameter> {
    match scope
    case ProgramScope(_) => []
    case FunctionScope(f) => f.functionParameters
  }

  function LevelStatements(scope: LevelScope): seq<Statement> {
    match scope
    case ProgramScope(p) => p.statements
    case FunctionScope(f) => f.functionBody.statements
  }

  function AnnotationTypes(annotation: Option<TypeLiteral>): seq<TypeLiteral> {
    match annotation
    case Some(t) => [t]
    case None => []
  }

  function ParameterSymbol(p: Parameter): Symbol {
    Symbol(p.parameterName, FunctionParameter, [p.parameterType], None)
  }

  function StatementSymbol(s: Statement): Symbol {
    match s
    case AssignmentStmt(a) => Symbol(a.identifier, Variable, AnnotationTypes(a.typeAnnotation), Some(a.startPos))
    case FunctionDefStmt(f) => Symbol(f.functionName, Function, Signature(f), None)
  }

  function ParameterSymbols(params: seq<Parameter>): seq<Symbol> {
    seq(|params|, i requires 0 <= i < |params| => ParameterSymbol(params[i]))
  }

  function StatementSymbols(stmts: seq<Statement>): seq<Symbol> {
    seq(|stmts|, i requires 0 <= i < |stmts| => StatementSymbol(stmts[i]))
  }

  /** The declarations of a level: its parameters, then one symbol per statement. */
  function LevelSymbolTable(scope: LevelScope): seq<Symbol> {
    ParameterSymbols(LevelParameters(scope)) + StatementSymbols(LevelStatements(scope))
  }

  method GetLevelSymbolTable(scope: LevelScope) returns (symbolTable: seq<Symbol>)
    ensures symbolTable == LevelSymbolTable(scope)
  {
    symbolTable := [];
    var parameters := LevelParameters(scope);
    if scope.FunctionScope? {
      for i := 0 to |parameters|
        invariant symbolTable == ParameterSymbols(parameters[..i])
      {
        assert ParameterSymbols(parameters[..i + 1]) == ParameterSymbols(parameters[..i]) + [ParameterSymbol(parameters[i])];
        var parameter := parameters[i];
        symbolTable := symbolTable + [Symbol(parameter.parameterName, FunctionParameter, [parameter.parameterType], None)];
      }
      assert parameters[..|parameters|] == parameters;
    }
    ghost var header := symbolTable;
    assert header == ParameterSymbols(parameters);
    var statements := LevelStatements(scope);
    for i := 0 to |statements|
      invariant symbolTable == header + StatementSymbols(statements[..i])
    {
      assert StatementSymbols(statements[..i + 1]) == StatementSymbols(statements[..i]) + [StatementSymbol(statements[i])];
      var symbol: Symbol;
      match statements[i] {
        case AssignmentStmt(assignment) =>
          var typeInfo := match assignment.typeAnnotation
            case Some(typeLiteral) => [typeLiteral]
            case None => [];
          symbol := Symbol(assignment.identifier, Variable, typeInfo, Some(assignment.startPos));
        case FunctionDefStmt(definition) =>
          var typeInfo := BuildSignature(definition);
          symbol := Symbol(definition.functionName, Function, typeInfo, None);
      }
      assert symbol == StatementSymbol(statements[i]);
      assert (header + StatementSymbols(statements[..i])) + [symbol] == header + (StatementSymbols(statements[..i]) + [symbol]);
      symbolTable := symbolTable + [symbol];
    }
    assert statements[..|statements|] == statements;
  }

  /** The level's parameters come first (singleton type, no position), then
      one symbol per statement of the level: a variable with its position and
      its annotation if any, or a function with no position whose type
      information has one entry per parameter plus the return type. */
  lemma LevelSymbolTableShape(scope: LevelScope)
    ensures var params, stmts, table := LevelParameters(scope), LevelStatements(scope), LevelSymbolTable(scope);
      |table| == |params| + |stmts| &&
      (forall i :: 0 <= i < |params| ==>
        table[i] == Symbol(params[i].parameterName, FunctionParameter, [params[i].parameterType], None)) &&
      (forall i :: 0 <= i < |stmts| && stmts[i].AssignmentStmt? ==>
        var a := stmts[i].assignment;
        table[|params| + i].symbol == a.identifier && table[|params| + i].kind == Variable &&
        table[|params| + i].startPos == Some(a.startPos) &&
        table[|params| + i].typeInfo == AnnotationTypes(a.typeAnnotation)) &&
      (forall i :: 0 <= i < |stmts| && stmts[i].FunctionDefStmt? ==>
        var f := stmts[i].definition;
        table[|params| + i].symbol == f.functionName && table[|params| + i].kind == Function &&
        table[|params| + i].startPos == None &&
        |table[|params| + i].typeInfo| == |f.functionParameters| + 1 &&
        table[|params| + i].typeInfo[|f.functionParameters|] == f.functionReturnType &&
        forall j :: 0 <= j < |f.functionParameters| ==>
          table[|params| + i].typeInfo[j] == f.functionParameters[j].parameterType)
  {
  }

  // ---------------------------------------------------------------------------
  // Redeclarations

  /** Reports of a symbol list scanned with the names in `seen` already
      accepted: a symbol whose name was seen is reported, and its name is
      then seen in any case. */
  function Redeclared(table: seq<Symbol>, seen: set<string>, scopeName: string): (r: seq<Redeclaration>)
    ensures |r| <= |table|
  {
    if table == [] then []
    else
      var s := table[0];
      (if s.symbol in seen then [Redeclaration(s.kind, s.symbol, scopeName)] else [])
        + Redeclared(table[1..], seen + {s.symbol}, scopeName)
  }

  function Redeclarations(scope: LevelScope): seq<Redeclaration> {
    Redeclared(LevelSymbolTable(scope), {}, ScopeName(scope))
  }

  /** One step of the scan: the symbol at `i` is reported iff its name was
      already seen, and its name is seen from then on. */
  lemma RedeclaredStep(table: seq<Symbol>, i: nat, seen: set<string>, scopeName: string)
    requires i < |table|
    ensures Redeclared(table[i..], seen, scopeName) ==
      (if table[i].symbol in seen then [Redeclaration(table[i].kind, table[i].symbol, scopeName)] else [])
        + Redeclared(table[i + 1..], seen + {table[i].symbol}, scopeName)
  {
    assert table[i..][0] == table[i];
    assert table[i..][1..] == table[i + 1..];
  }

  /** The scan of `check_for_redeclarations`: each symbol whose name is
      already in the set of seen names is reported, and every name is added
      to that set. */
  method ReportRedeclarations(symbolTable: seq<Symbol>, scopeName: string) returns (errors: seq<Redeclaration>)
    ensures errors == Redeclared(symbolTable, {}, scopeName)
  {
    errors := [];
    var temp: set<string> := {};
    ghost var all := Redeclared(symbolTable, {}, scopeName);
    for i := 0 to |symbolTable|
      invariant errors + Redeclared(symbolTable[i..], temp, scopeName) == all
    {
      var symbol := symbolTable[i];
      RedeclaredStep(symbolTable, i, temp, scopeName);
      ghost var rest := Redeclared(symbolTable[i + 1..], temp + {symbol.symbol}, scopeName);
      var inserted := symbol.symbol !in temp;
      temp := temp + {symbol.symbol};
      if !inserted {
        var report := Redeclaration(symbol.kind, symbol.symbol, scopeName);
        ghost var before := errors;
        errors := errors + [report];
        assert before + ([report] + rest) == errors + rest;
      } else {
        assert [] + rest == rest;
      }
    }
    assert symbolTable[|symbolTable|..] == [];
  }

  method CheckForRedeclarations(scope: LevelScope) returns (errors: seq<Redeclaration>)
    ensures errors == Redeclarations(scope)
  {
    var symbolTable := GetLevelSymbolTable(scope);
    var scopeName := match scope
      case ProgramScope(_) => "(program)"
      case FunctionScope(definition) => definition.functionName;
    errors := ReportRedeclarations(symbolTable, scopeName);
  }

  /** Number of symbols named `x`, whatever their kind. */
  function Occurrences(table: seq<Symbol>, x: string): nat {
    if table == [] then 0 else (if table[0].symbol == x then 1 else 0) + Occurrences(table[1..], x)
  }

  function ReportsOf(errors: seq<Redeclaration>, x: string): nat {
    if errors == [] then 0 else (if errors[0].symbol == x then 1 else 0) + ReportsOf(errors[1..], x)
  }

  function Names(table: seq<Symbol>): set<string> {
    set i | 0 <= i < |table| :: table[i].symbol
  }

  lemma {:induction false} ReportsOfAppend(e1: seq<Redeclaration>, e2: seq<Redeclaration>, x: string)
    ensures ReportsOf(e1 + e2, x) == ReportsOf(e1, x) + ReportsOf(e2, x)
  {
    if e1 != [] {
      assert (e1 + e2)[1..] == e1[1..] + e2;
      ReportsOfAppend(e1[1..], e2, x);
    } else {
      assert e1 + e2 == e2;
    }
  }

  lemma {:induction false} RedeclaredCount(table: seq<Symbol>, seen: set<string>, scopeName: string, x: string)
    ensures ReportsOf(Redeclared(table, seen, scopeName), x) ==
      if x in seen then Occurrences(table, x)
      else if Occurrences(table, x) == 0 then 0 else Occurrences(table, x) - 1
  {
    if table != [] {
      var s := table[0];
      var head: seq<Redeclaration> := if s.symbol in seen then [Redeclaration(s.kind, s.symbol, scopeName)] else [];
      ReportsOfAppend(head, Redeclared(table[1..], seen + {s.symbol}, scopeName), x);
      RedeclaredCount(table[1..], seen + {s.symbol}, scopeName, x);
    }
  }

  /** A name that occurs k times at one level (as any mix of kinds) is
      reported exactly k - 1 times: every occurrence but the first. */
  lemma RedeclarationsPerName(scope: LevelScope, x: string)
    ensures var k := Occurrences(LevelSymbolTable(scope), x);
      ReportsOf(Redeclarations(scope), x) == if k == 0 then 0 else k - 1
  {
    RedeclaredCount(LevelSymbolTable(scope), {}, ScopeName(scope), x);
  }

  /** Whether the symbol at `i` repeats a name: the name was already seen
      before the scan started, or an earlier symbol of the list has it. */
  predicate SeenBefore(table: seq<Symbol>, seen: set<string>, i: nat)
    requires i < |table|
  {
    table[i].symbol in seen || exists j :: 0 <= j < i && table[j].symbol == table[i].symbol
  }

  /** Every report is of a symbol whose name was seen before it. */
  lemma {:induction false} ReportedIsRepeated(table: seq<Symbol>, seen: set<string>, scopeName: string, e: Redeclaration)
    requires e in Redeclared(table, seen, scopeName)
    ensures exists i :: 0 <= i < |table| &&
               e == Redeclaration(table[i].kind, table[i].symbol, scopeName) && SeenBefore(table, seen, i)
  {
    var s, tail := table[0], table[1..];
    var seen' := seen + {s.symbol};
    if s.symbol in seen && e == Redeclaration(s.kind, s.symbol, scopeName) {
      assert SeenBefore(table, seen, 0);
    } else {
      assert e in Redeclared(tail, seen', scopeName);
      ReportedIsRepeated(tail, seen', scopeName, e);
      var k :| 0 <= k < |tail| && e == Redeclaration(tail[k].kind, tail[k].symbol, scopeName) &&
        SeenBefore(tail, seen', k);
      assert table[k + 1] == tail[k];
      if tail[k].symbol !in seen' {
        var j :| 0 <= j < k && tail[j].symbol == tail[k].symbol;
        assert table[j + 1] == tail[j];
      } else if tail[k].symbol !in seen {
        assert table[0].symbol == table[k + 1].symbol;
      }
      assert SeenBefore(table, seen, k + 1);
    }
  }

  /** Every symbol whose name was seen before it is reported. */
  lemma {:induction false} RepeatedIsReported(table: seq<Symbol>, seen: set<string>, scopeName: string, i: nat)
    requires i < |table| && SeenBefore(table, seen, i)
    ensures Redeclaration(table[i].kind, table[i].symbol, scopeName) in Redeclared(table, seen, scopeName)
  {
    var s, tail := table[0], table[1..];
    var seen' := seen + {s.symbol};
    var head := if s.symbol in seen then [Redeclaration(s.kind, s.symbol, scopeName)] else [];
    assert Redeclared(table, seen, scopeName) == head + Redeclared(tail, seen', scopeName);
    if i > 0 {
      assert tail[i - 1] == table[i];
      if table[i].symbol !in seen {
        var j :| 0 <= j < i && table[j].symbol == table[i].symbol;
        if j > 0 {
          assert tail[j - 1] == table[j];
        }
      }
      assert SeenBefore(tail, seen', i - 1);
      RepeatedIsReported(tail, seen', scopeName, i - 1);
    }
  }

  /** The reports of a level are exactly its repeated declarations: the
      symbol at position i of the level table is reported, under its own kind
      and name and the level's name, iff an earlier symbol of the same level
      has its name.  The first occurrence of every name is accepted. */
  lemma RedeclarationsExactly(scope: LevelScope, e: Redeclaration)
    ensures var t := LevelSymbolTable(scope);
      e in Redeclarations(scope) <==>
        exists i :: 0 <= i < |t| && e == Redeclaration(t[i].kind, t[i].symbol, ScopeName(scope)) &&
          exists j :: 0 <= j < i && t[j].symbol == t[i].symbol
  {
    var t := LevelSymbolTable(scope);
    if e in Redeclarations(scope) {
      ReportedIsRepeated(t, {}, ScopeName(scope), e);
    }
    if exists i :: 0 <= i < |t| && e == Redeclaration(t[i].kind, t[i].symbol, ScopeName(scope)) &&
         exists j :: 0 <= j < i && t[j].symbol == t[i].symbol {
      var i :| 0 <= i < |t| && e == Redeclaration(t[i].kind, t[i].symbol, ScopeName(scope)) &&
        exists j :: 0 <= j < i && t[j].symbol == t[i].symbol;
      RepeatedIsReported(t, {}, ScopeName(scope), i);
    }
  }

  /** Every report names the level being scanned. */
  lemma {:induction false} ReportsNameTheLevel(table: seq<Symbol>, seen: set<string>, scopeName: string)
    ensures forall e :: e in Redeclared(table, seen, scopeName) ==> e.scopeName == scopeName
  {
    if table != [] {
      ReportsNameTheLevel(table[1..], seen + {table[0].symbol}, scopeName);
    }
  }

  lemma NamesCons(table: seq<Symbol>)
    requires table != []
    ensures Names(table) == {table[0].symbol} + Names(table[1..])
  {
    forall y | y in Names(table) ensures y in {table[0].symbol} + Names(table[1..]) {
      var i :| 0 <= i < |table| && table[i].symbol == y;
      if i > 0 { assert table[1..][i - 1] == table[i]; }
    }
    forall y | y in Names(table[1..]) ensures y in Names(table) {
      var i :| 0 <= i < |table[1..]| && table[1..][i].symbol == y;
      assert table[i + 1] == table[1..][i];
    }
  }

  lemma {:induction false} RedeclaredTotal(table: seq<Symbol>, seen: set<string>, scopeName: string)
    ensures |Redeclared(table, seen, scopeName)| == |table| - |Names(table) - seen|
  {
    if table != [] {
      var x := table[0].symbol;
      var tail := Names(table[1..]) - (seen + {x});
      RedeclaredTotal(table[1..], seen + {x}, scopeName);
      NamesCons(table);
      if x in seen {
        assert |Redeclared(table, seen, scopeName)| == 1 + |Redeclared(table[1..], seen + {x}, scopeName)|;
        assert Names(table) - seen == tail;
      } else {
        assert |Redeclared(table, seen, scopeName)| == |Redeclared(table[1..], seen + {x}, scopeName)|;
        assert Names(table) - seen == {x} + tail;
        assert x !in tail;
      }
    }
  }

  /** The number of reports is the number of symbols less the number of
      distinct names: exactly one symbol per name is accepted. */
  lemma RedeclarationsTotal(scope: LevelScope)
    ensures |Redeclarations(scope)| == |LevelSymbolTable(scope)| - |Names(LevelSymbolTable(scope))|
  {
    RedeclaredTotal(LevelSymbolTable(scope), {}, ScopeName(scope));
  }

  // ---------------------------------------------------------------------------
  // Whether one level defines a usage

  /** What the lookup of a variable usage unwraps: the positions of the usage
      and of every variable of the same name at this level. */
  predicate PositionsPresent(usage: Usage, table: seq<Symbol>) {
    usage.kind == VariableUse ==>
      forall s :: s in table && s.kind == Variable && s.symbol == usage.symbol ==>
        usage.startPos.Some? && s.startPos.Some?
  }

  /** The symbols a variable usage is checked against: variables and
      parameters, in table order. */
  function VariablesAndParameters(table: seq<Symbol>): (r: seq<Symbol>)
    ensures forall s :: s in r <==> s in table && s.kind != Function
  {
    if table == [] then []
    else (if table[0].kind != Function then [table[0]] else []) + VariablesAndParameters(table[1..])
  }

  /** Whether any of `candidates` makes the variable usage visible: a
      variable of the same name declared at an earlier position, or a
      parameter of the same name. */
  function AnyVisible(usage: Usage, candidates: seq<Symbol>): bool
    requires usage.kind == VariableUse
    requires forall s :: s in candidates ==> s.kind != Function
    requires PositionsPresent(usage, candidates)
  {
    if candidates == [] then false
    else
      var s := candidates[0];
      assert s in candidates;
      var visible := match s.kind
        case Variable => usage.symbol == s.symbol && usage.startPos.value > s.startPos.value
        case FunctionParameter => usage.symbol == s.symbol
        case Function => assert false; false;
      visible || AnyVisible(usage, candidates[1..])
  }

  function AnySameName(usage: Usage, table: seq<Symbol>): bool {
    table != [] && (usage.symbol == table[0].symbol || AnySameName(usage, table[1..]))
  }

  /** Whether this level defines the usage.  A variable usage is checked
      against the level's variables and parameters: it is defined iff the
      level declares a variable of that name strictly before the usage or a
      parameter of that name.  A call is checked against every symbol of the
      level: it is defined iff the level declares that name at all, of any
      kind, wherever it is declared. */
  function UsageIsDefined(usage: Usage, symbolTable: seq<Symbol>): (r: bool)
    requires PositionsPresent(usage, symbolTable)
    ensures usage.kind == VariableUse ==>
      (r <==>
        (exists s :: s in symbolTable && s.kind == Variable && s.symbol == usage.symbol &&
           usage.startPos.Some? && s.startPos.Some? && s.startPos.value < usage.startPos.value) ||
        (exists s :: s in symbolTable && s.kind == FunctionParameter && s.symbol == usage.symbol))
    ensures usage.kind == FunctionCallUse ==>
      (r <==> exists s :: s in symbolTable && s.symbol == usage.symbol)
  {
    match usage.kind
    case VariableUse =>
      AnyVisibleMeaning(usage, VariablesAndParameters(symbolTable));
      AnyVisible(usage, VariablesAndParameters(symbolTable))
    case FunctionCallUse =>
      AnySameNameMeaning(usage, symbolTable);
      AnySameName(usage, symbolTable)
  }

  lemma {:induction false} AnyVisibleMeaning(usage: Usage, candidates: seq<Symbol>)
    requires usage.kind == VariableUse
    requires forall s :: s in candidates ==> s.kind != Function
    requires PositionsPresent(usage, candidates)
    ensures AnyVisible(usage, candidates) <==>
      (exists s :: s in candidates && s.kind == Variable && s.symbol == usage.symbol &&
         usage.startPos.Some? && s.startPos.Some? && s.startPos.value < usage.startPos.value) ||
      (exists s :: s in candidates && s.kind == FunctionParameter && s.symbol == usage.symbol)
  {
    if candidates != [] {
      var head, tail := candidates[0], candidates[1..];
      assert forall s :: s in tail ==> s in candidates;
      AnyVisibleMeaning(usage, tail);
      assert forall s :: s in candidates ==> s == head || s in tail;
      assert head in candidates;
    }
  }

  lemma {:induction false} AnySameNameMeaning(usage: Usage, table: seq<Symbol>)
    ensures AnySameName(usage, table) <==> exists s :: s in table && s.symbol == usage.symbol
  {
    if table != [] {
      AnySameNameMeaning(usage, table[1..]);
      assert forall s :: s in table ==> s == table[0] || s in table[1..];
    }
  }
}
