# crisp name analysis: scopes and symbol tables

This project models the semantic-analysis core of `crisp`, a front end for a
small language of expressions and functions. The parser hands the core a
syntax tree: a program is a list of statements, and each statement is an
assignment (`let`) or a function definition with its own nested body. The
core then builds four views of the declarations in that tree:

- `scope.dfy` (module `Scopes`, `src/scope.rs`) builds the **scope tree**.
  There is one scope for the program, named `(program)`, and one scope per
  function definition. Each scope lists the names declared directly in it,
  the variable references and calls made directly in it, and the scopes of
  the functions it defines.
- `scope2.dfy` (module `LevelScopes`, `src/scope2.rs`) handles **one level at
  a time**. It builds the level's declaration list, with type information
  and positions. It reports every repeated name at that level. It also
  tests whether that level defines a given usage.
- `symbol_table.dfy` (module `SymbolTables`, `src/symbol_table.rs`) builds the
  **flat symbol table**. This is a single pre-order list of every
  declaration in the program, with duplicates kept.
- `symbol_table2.dfy` (module `SymbolTables2`, `src/symbol_table2.rs`) builds
  the **nested, name-keyed table**. Each level is a map from a name to its
  entry, and a function's entry holds its own level's map. A later
  insertion under the same name replaces the earlier one.

`ast.dfy` (module `Ast`) holds the syntax tree the builders read and the
type vector of a function: its parameter types in order, then its return
type. `resolution.dfy` (module `Resolution`) is not a transcription of a
source file. The unused function `resolve_names` (`src/main.rs:78-79`)
calls a scope-chain resolver that no live file defines, and its call in
`main` is commented out (`src/main.rs:30-32`). This module composes the
single-level test of `src/scope2.rs` over a chain of levels, searching from
the innermost level outward. Because that test compares positions at every
level, outer ones included, a function body does not see a top-level
variable declared later in the text (`Resolution.LaterTopLevelInvisible`).
Its scenario lemmas are worked examples of the resulting behaviour.

Every builder that works by pushing onto a list in a loop is a `method` with
a loop. Each such method is proved equal to a specification function, and
the properties are proved about those functions as lemmas. Hash maps are
Dafny `map`s. Where the source iterates over a map in hash order, the model
picks the keys in an arbitrary order (`SymbolTables2.InsertAll`) and proves
that the result does not depend on that order.

## Model

| member | source | states |
|---|---|---|
| Ast.BuildSignature | src/symbol_table.rs:56-60 | the type vector is the parameter types in order followed by the return type, so its length is the arity plus one and its last entry is the return type |
| Scopes.UsagesAreReferences | src/scope.rs:104-187 | an expression yields exactly one usage per identifier reference and per call; a variable usage of x is produced iff x is referenced as an identifier somewhere in the expression; a function usage of g is produced iff g is called somewhere in it; no usage is a parameter |
| Scopes.ArgumentsAreReferences | src/scope.rs:173-181 | the same count and the same two equivalences for a call's argument list |
| Scopes.ExtractSymbols | src/scope.rs:104-187 | the recursive collector with its argument loop returns the pre-order usage list of the expression |
| Scopes.BuildProgramScope | src/scope.rs:27-59 | the program scope is exactly its specification: declarations, usages and child scopes of the top-level statements, in order |
| Scopes.BuildFunctionScope | src/scope.rs:61-102 | a function scope is exactly its specification: parameters then body declarations, the body's usages, and one child per nested function |
| Scopes.ProgramScopeSymbols | src/scope.rs:33-58 | the program scope is named "(program)" and declares one symbol per top-level statement, in order; the symbol is a Variable iff the statement is an assignment and a Function iff it is a definition |
| Scopes.FunctionScopeSymbols | src/scope.rs:67-101 | a function scope is named after the function; it declares the parameters first, in parameter order, then one symbol per body statement |
| Scopes.ChildrenAreFunctionScopes | src/scope.rs:43-49 | a level's children are exactly the scopes of its function definitions, one each, in declaration order, named after them |
| Scopes.UsagesIgnoreFunctionDefinitions | src/scope.rs:86-92 | inserting a function definition into a level leaves the level's usages unchanged: nested bodies are seen only by their own scope |
| Scopes.UsagesComeFromAssignments | src/scope.rs:77-94 | a symbol is a usage of a level iff it is a usage of the right-hand side of one of the level's assignments |
| Scopes.ReturnExpressionIgnored | src/scope.rs:61-102 | changing a function's return expression does not change its scope |
| LevelScopes.GetLevelSymbolTable | src/scope2.rs:45-125 | the two loops build exactly the level's declaration list: parameters, then one symbol per statement |
| LevelScopes.LevelSymbolTableShape | src/scope2.rs:45-125 | parameters come first with their one type and no position; an assignment gives a Variable with its position and, as its type info, its annotation if it has one and nothing otherwise; a definition gives a Function with no position whose type info is the parameter types followed by the return type |
| LevelScopes.Redeclared | src/scope2.rs:135-139 | the scan reports at most one entry per symbol |
| LevelScopes.ReportsNameTheLevel | src/scope2.rs:131-137 | every report carries the name of the level being scanned |
| LevelScopes.ReportRedeclarations | src/scope2.rs:135-139 | the loop over the level's symbols with its growing set of seen names returns exactly the specified reports, in order |
| LevelScopes.CheckForRedeclarations | src/scope2.rs:127-142 | the level's reports are the scan of its declaration list, tagged with "(program)" or the function's name |
| LevelScopes.RedeclaredCount | src/scope2.rs:135-139 | with the names in `seen` already accepted, a name occurring k times is reported k times if seen and k-1 times otherwise |
| LevelScopes.RedeclarationsPerName | src/scope2.rs:127-142 | a name that occurs k times at one level, in any mix of kinds, is reported exactly k-1 times |
| LevelScopes.RedeclaredTotal | src/scope2.rs:135-139 | the number of reports is the number of symbols less the number of distinct names not already seen |
| LevelScopes.RedeclarationsExactly | src/scope2.rs:127-142 | a report is in a level's reports iff it is the kind and name of a symbol of the level table, tagged with the level's name, and an earlier symbol of that table has the same name: every occurrence but the first is reported, under its own kind |
| LevelScopes.RedeclarationsTotal | src/scope2.rs:127-142 | a level's report count is its symbol count less its number of distinct names |
| LevelScopes.VariablesAndParameters | src/scope2.rs:149-151 | the filter keeps exactly the symbols that are not functions |
| LevelScopes.UsageIsDefined | src/scope2.rs:144-169 | a variable usage is defined iff the level declares a variable of that name at a strictly smaller position, or a parameter of that name; a call is defined iff the level declares that name with any kind |
| LevelScopes.AnyVisibleMeaning | src/scope2.rs:149-160 | the `any` over variables and parameters holds iff some earlier same-name variable or some same-name parameter is among them |
| LevelScopes.AnySameNameMeaning | src/scope2.rs:163-166 | the `any` over the whole level holds iff some symbol has the call's name |
| SymbolTables.BuildProgramSymbolTable | src/symbol_table.rs:24-41 | the program table is every statement's contribution concatenated in order |
| SymbolTables.BuildFunctionDefSymbolTable | src/symbol_table.rs:53-88 | a function contributes its own symbol, then its parameters, then its body's contributions |
| SymbolTables.SymbolCount | src/symbol_table.rs:24-88 | the flat table has exactly one symbol per declaration anywhere in the tree: assignments, definitions and parameters, nested bodies and duplicates included |
| SymbolTables.StatementSymbolCount | src/symbol_table.rs:28-35 | one statement contributes one symbol per declaration it contains |
| SymbolTables.FunctionDefSymbolsShape | src/symbol_table.rs:53-74 | a function's first symbol carries its name, its address and the parameter types followed by the return type (arity plus one entries); then come one symbol per parameter in order; the body's symbols follow |
| SymbolTables.AssignmentContribution | src/symbol_table.rs:43-51 | an assignment contributes exactly one variable symbol with its name, address and position |
| SymbolTables.ReturnExpressionIgnored | src/symbol_table.rs:53-88 | a function's return expression contributes no symbols |
| SymbolTables2.InsertAll | src/symbol_table2.rs:29-31 | inserting every entry of a map, in whatever order its keys are visited, gives the map union in which the new entries win |
| SymbolTables2.BuildProgramSymbolTable2 | src/symbol_table2.rs:25-37 | the program map is the statements' one-entry maps inserted in statement order |
| SymbolTables2.BuildStatementSymbolTable2 | src/symbol_table2.rs:39-70 | an assignment gives its one-entry map; a definition gives one entry holding its type vector and its own inner map |
| SymbolTables2.BuildFunctionDefSymbolTable2 | src/symbol_table2.rs:84-106 | a function's inner map is its parameters inserted in order, then its body's statements inserted in order |
| SymbolTables2.StatementTableEntry | src/symbol_table2.rs:39-82 | a statement's map has exactly one key, its declared name, holding an entry under that same name; the entry has an inner map iff it is a function |
| SymbolTables2.TablesCoherent | src/symbol_table2.rs:25-106 | in the program map and in every function's inner map each key is its entry's name, and exactly the function entries carry an inner map |
| SymbolTables2.TableKeys | src/symbol_table2.rs:25-106 | the program map's keys are exactly the names its top-level statements declare; a function's inner map's keys are exactly its parameter names plus the names its body declares directly |
| SymbolTables2.InsertStatementsKeepsOthers | src/symbol_table2.rs:99-103 | statements that do not declare a name leave its presence and its entry unchanged |
| SymbolTables2.InsertStatementsLastWins | src/symbol_table2.rs:99-103 | of several statements declaring one name, the last one's entry is the one kept |
| SymbolTables2.InsertParametersLastWins | src/symbol_table2.rs:87-97 | of several parameters with one name, the last one's entry is the one kept |
| SymbolTables2.ProgramLastWins | src/symbol_table2.rs:28-32 | at the program level the last top-level declaration of a name is the one kept |
| SymbolTables2.BodyOverridesParameter | src/symbol_table2.rs:87-103 | a body declaration replaces a parameter of the same name in the function's inner map |
| SymbolTables2.ParameterSurvives | src/symbol_table2.rs:87-103 | a parameter keeps its own entry when no later parameter repeats its name and no body statement declares it |
| SymbolTables2.StatementInfoContents | src/symbol_table2.rs:42-82 | a variable entry carries its annotation and position and no inner map; a function entry carries the parameter types followed by the return type and its inner map |
| Resolution.ResolvingLevel | src/main.rs:78-79 | a usage resolves at the innermost level that defines it and at no level inside that one; it resolves nowhere iff no level of the chain defines it |
| Resolution.LevelTablesHavePositions | src/scope2.rs:53-62 | every variable in a built level table has a position, so the lookup of a positioned usage never unwraps a missing position |
| Resolution.ChainHasPositions | src/scope2.rs:53-62 | the same holds for every level of a chain of built tables |
| Resolution.ParameterShadowsOuter | src/scope2.rs:158 | a parameter of the innermost level resolves a same-name variable usage there, whatever the outer levels declare |
| Resolution.DeclaredBeforeUseTable | src/scope2.rs:49-63 | the program `let x = 5; let y = x + 1;` has the two variables x at 0 and y at 11, unannotated (positions are character offsets of each `let`) |
| Resolution.DeclaredBeforeUse | src/scope2.rs:155-156 | in that program the use of x at 19 resolves at the program level, and nothing is redeclared |
| Resolution.UsedBeforeDeclarationTable | src/scope2.rs:49-63 | the program `let y = x + 1; let x = 5;` has the two variables y at 0 and x at 15 |
| Resolution.UsedBeforeDeclaration | src/scope2.rs:155-156 | in that program the use of x at 8 resolves nowhere |
| Resolution.SecondDeclarationReported | src/scope2.rs:135-139 | `let x = 1; let x = 2;` gives exactly one report, for the second x, as a variable, in "(program)" |
| Resolution.ForwardCallTables | src/scope2.rs:64-76 | the program `fun a(): Unit { let r = b(); } fun b(): Unit { return; }` has two functions whose type info is the return type alone; a's own level holds the variable r only |
| Resolution.ForwardCallIsUsage | src/scope.rs:76-84 | the scope builder records the call `b()` on the right-hand side in a's body as the one Function usage of a's scope |
| Resolution.ForwardCallResolves | src/scope2.rs:162-167 | that call, as a call usage of b, is not defined at a's level and resolves at the program level although b is defined after a |
| Resolution.ShadowingTables | src/scope2.rs:81-104 | with `let x = 1; fun f(x: Number): Number { let y = x; }`, the program level holds x at 0 and f, and f's level holds the parameter x then y at 38 |
| Resolution.ParameterShadowsTopLevel | src/scope2.rs:158 | the use of x at 46 inside f resolves to f's level, through its parameter, not to the top-level x |
| Resolution.ShadowingIsNotRedeclaration | src/scope2.rs:127-142 | the parameter x and the top-level x are at different levels, so neither level reports a redeclaration |
| Resolution.LaterTopLevelTables | src/scope2.rs:49-76 | the program `fun g(): Unit { let y = z; } let z = 1;` has the function g, whose type info is its return type, and the variable z at 29; g's level holds y at 16 |
| Resolution.LaterTopLevelInvisible | src/scope2.rs:153-156 | the use of z at 24 inside g resolves nowhere: the top-level z is declared at 29, after the use, and the outer level is checked by position too |

## Left out

- Parsing, the two syntax-tree variants (`src/ast.rs`, `src/ast2.rs`) and the parsers are not part of this model. `Ast` holds one tree with the fields the four builders read. It adds a position to identifier references, which no builder reads; `Resolution` uses it to state where a usage occurs.
- The twelve binary operators and two unary operators are grouped into `Binary(op, ..)` and `Unary(op, ..)`. Every one of their arms in `extract_symbols` does the same thing.
- `src/name_resolution.rs` is commented out in full, so the reserved-keyword check and the scope-chain resolver it sketched are not modelled. `Resolution` is a composition of the live single-level test, not a transcription.
- `src/main.rs` is left out: the driver, its `Result` plumbing and all printing, including the `println!` tracing inside `usage_is_defined`.
- A redeclaration is reported as a record of kind, name and level name. The formatted message text is not modelled.
- Hash-map iteration order is not modelled. `InsertAll` picks keys in any order and is proved order-independent.
- `usize` positions are modelled as unbounded `nat`. Nothing in the core does arithmetic on them; positions are only compared.
- Scopes.BuildFunctionScope: the source does not collect usages from a function's return expression, and neither does the model (`Scopes.ReturnExpressionIgnored`).
- LevelScopes.UsageIsDefined: a call is defined by a same-name symbol of any kind (variable, parameter or function), as the source's call arm compares names only.
- LevelScopes.UsageIsDefined: the precondition asks for a position on the usage and on every same-name variable of the level. The source only unwraps the positions it reaches before `any` stops, so it accepts slightly more inputs. `Resolution.LevelTablesHavePositions` shows that every built table meets the precondition.
- LevelScopes.GetLevelSymbolTable: the source repeats the statement loop in both arms of its match. The model has one parameter loop, run for a function level only, and one shared statement loop. Both build the same list.
- The `unreachable!` arm of `usage_is_defined` for a Function candidate is excluded by the filter before it. The model states this as a precondition of the inner search, so the panic path is not modelled.
