/** Syntax tree of the expression-and-function language, as the scope and
    symbol-table builders consume it.  The parser produces this tree; every
    assignment and identifier reference already carries the position the
    parser attached to it, compared with `<` only. */
module Ast {

  datatype Option<T> = None | Some(value: T)

  /** The type literals a program may write. */
  datatype TypeLiteral = Number | Boolean | String | Unit

  datatype UnaryOp = Negative | Not

  datatype BinaryOp =
    | Plus | Minus | Times | Divide
    | IsEqual | NotEqual | LessThan | LessThanOrEqual | GreaterThan | GreaterThanOrEqual
    | Or | And

  datatype Expression =
    | NumberLiteral(number: int)
    | BooleanLiteral(boolean: bool)
    | StringLiteral(text: string)
    | Identifier(name: string, startPos: nat)
    | Unary(uop: UnaryOp, operand: Expression)
    | Binary(bop: BinaryOp, left: Expression, right: Expression)
    | IfElseExpression(condition: Expression, trueBranch: Expression, falseBranch: Expression)
    | FunctionCall(functionName: string, functionArguments: seq<Expression>)

  datatype Assignment = Assignment(
    identifier: string,
    typeAnnotation: Option<TypeLiteral>,
    rhs: Expression,
    startPos: nat,
    scopeAddress: string)

  datatype Parameter = Parameter(parameterName: string, parameterType: TypeLiteral, scopeAddress: string)

  datatype FunctionBody = FunctionBody(statements: seq<Statement>, returnExpression: Option<Expression>)

  datatype FunctionDefinition = FunctionDefinition(
    functionName: string,
    functionParameters: seq<Parameter>,
    functionReturnType: TypeLiteral,
    functionBody: FunctionBody,
    scopeAddress: string)

  datatype Statement =
    | AssignmentStmt(assignment: Assignment)
    | FunctionDefStmt(definition: FunctionDefinition)

  datatype Program = Program(statements: seq<Statement>)

  /** The type vector of a function: its parameter types in order, followed
      by its return type. */
  function Signature(f: FunctionDefinition): seq<TypeLiteral> {
    seq(|f.functionParameters|, i requires 0 <= i < |f.functionParameters| => f.functionParameters[i].parameterType)
      + [f.functionReturnType]
  }

  /** Builds the type vector of a function by pushing each parameter type,
      then the return type; its length is the arity plus one. */
  method BuildSignature(f: FunctionDefinition) returns (typeVector: seq<TypeLiteral>)
    ensures typeVector == Signature(f)
    ensures |typeVector| == |f.functionParameters| + 1
    ensures typeVector[|f.functionParameters|] == f.functionReturnType
  {
    typeVector := [];
    for i := 0 to |f.functionParameters|
      invariant typeVector == Signature(f)[..i]
    {
      typeVector := typeVector + [f.functionParameters[i].parameterType];
    }
    typeVector := typeVector + [f.functionReturnType];
  }

  /** The name a statement declares in the level it appears in. */
  function DeclaredName(s: Statement): string {
    match s
    case AssignmentStmt(a) => a.identifier
    case FunctionDefStmt(f) => f.functionName
  }

  /** The set of names the statements of one level declare (nested bodies excluded). */
  function DeclaredNames(stmts: seq<Statement>): set<string> {
    set i | 0 <= i < |stmts| :: DeclaredName(stmts[i])
  }

  function ParameterNames(params: seq<Parameter>): set<string> {
    set i | 0 <= i < |params| :: params[i].parameterName
  }

  /** The function definitions among `stmts`, in order. */
  function FunctionDefinitions(stmts: seq<Statement>): seq<FunctionDefinition> {
    if stmts == [] then []
    else match stmts[0]
      case AssignmentStmt(_) => FunctionDefinitions(stmts[1..])
      case FunctionDefStmt(f) => [f] + FunctionDefinitions(stmts[1..])
  }

  /** The assignments among `stmts`, in order. */
  function Assignments(stmts: seq<Statement>): seq<Assignment> {
    if stmts == [] then []
    else match stmts[0]
      case AssignmentStmt(a) => [a] + Assignments(stmts[1..])
      case FunctionDefStmt(_) => Assignments(stmts[1..])
  }

  /** Number of identifier references and function calls in an expression. */
  function UsageNodeCount(e: Expression): nat {
    match e
    case Identifier(_, _) => 1
    case Unary(_, a) => UsageNodeCount(a)
    case Binary(_, a, b) => UsageNodeCount(a) + UsageNodeCount(b)
    case IfElseExpression(c, t, f) => UsageNodeCount(c) + UsageNodeCount(t) + UsageNodeCount(f)
    case FunctionCall(_, args) => 1 + ArgumentsUsageNodeCount(args)
    case _ => 0
  }

  function ArgumentsUsageNodeCount(args: seq<Expression>): nat {
    if args == [] then 0 else UsageNodeCount(args[0]) + ArgumentsUsageNodeCount(args[1..])
  }

  /** Names referenced as variables anywhere in an expression. */
  function IdentifierNames(e: Expression): set<string> {
    match e
    case Identifier(x, _) => {x}
    case Unary(_, a) => IdentifierNames(a)
    case Binary(_, a, b) => IdentifierNames(a) + IdentifierNames(b)
    case IfElseExpression(c, t, f) => IdentifierNames(c) + IdentifierNames(t) + IdentifierNames(f)
    case FunctionCall(_, args) => ArgumentsIdentifierNames(args)
    case _ => {}
  }

  function ArgumentsIdentifierNames(args: seq<Expression>): set<string> {
    if args == [] then {} else IdentifierNames(args[0]) + ArgumentsIdentifierNames(args[1..])
  }

  /** Names called as functions anywhere in an expression. */
  function CalleeNames(e: Expression): set<string> {
    match e
    case Unary(_, a) => CalleeNames(a)
    case Binary(_, a, b) => CalleeNames(a) + CalleeNames(b)
    case IfElseExpression(c, t, f) => CalleeNames(c) + CalleeNames(t) + CalleeNames(f)
    case FunctionCall(g, args) => {g} + ArgumentsCalleeNames(args)
    case _ => {}
  }

  function ArgumentsCalleeNames(args: seq<Expression>): set<string> {
    if args == [] then {} else CalleeNames(args[0]) + ArgumentsCalleeNames(args[1..])
  }

  /** Number of declarations anywhere in a statement list: assignments,
      function definitions and their parameters, nested bodies included. */
  function DeclarationCount(stmts: seq<Statement>): nat {
    if stmts == [] then 0 else StatementDeclarationCount(stmts[0]) + DeclarationCount(stmts[1..])
  }

  function StatementDeclarationCount(s: Statement): nat {
    match s
    case AssignmentStmt(_) => 1
    case FunctionDefStmt(f) => 1 + |f.functionParameters| + DeclarationCount(f.functionBody.statements)
  }
}
